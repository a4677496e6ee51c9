/** The MIDI tab: fifty stored rows seen through five rows of controls, and the Learn boxes. */
module MidiBanks {
  import opened Numerals
  import opened Text

  type Int32 = n: int | -0x8000_0000 <= n < 0x8000_0000

  datatype ActionType = UndefinedType | Button | Knob

  datatype ActionId =
    | Undefined | Message | KnobPresetAmpL | KnobPresetAmpR | KnobMessageBPM | KnobMessageBeats
    | KnobSettingsTime | KnobSettingsFPS | KnobSettingsIntensity | KnobSettingsShift | KnobSettingsQuality
    | KnobSettingsHue | KnobSettingsSaturation | KnobSettingsBrightness

  datatype Row = Row(row: int, active: bool, rowLabel: string, value: Option<Int32>, channel: Option<Int32>,
                     controller: Option<Int32>, actionId: ActionId, actionType: ActionType, actionText: string,
                     increment: string)

  /** One row of controls; selected is the entry chosen from the list of knob actions. */
  datatype Cells = Cells(active: bool, rowLabel: string, value: string, channel: string, controller: string,
                         selected: Option<ActionId>, actionText: string, increment: string)

  const ROWS := 5
  const BANKS := 10

  // ----- Banks -----

  function DataIndex(rowIndex: nat, bank: nat): int { (rowIndex - 1) + (bank - 1) * ROWS }

  /** Row and bank number the stored rows one by one. */
  lemma BankBijection(rowIndex: nat, bank: nat)
    requires 1 <= rowIndex <= ROWS && 1 <= bank <= BANKS
    ensures 0 <= DataIndex(rowIndex, bank) < ROWS * BANKS
    ensures DataIndex(rowIndex, bank) % ROWS + 1 == rowIndex && DataIndex(rowIndex, bank) / ROWS + 1 == bank
    ensures forall index: nat :: index < ROWS * BANKS ==>
              1 <= index / ROWS + 1 <= BANKS && DataIndex(index % ROWS + 1, index / ROWS + 1) == index
  {
  }

  // ----- Showing and writing back -----

  /** int?.ToString() */
  function NumberText(n: Option<Int32>): string {
    match n
    case None => ""
    case Some(v) => Print(Dec(v, 0))
  }

  /** int.TryParse */
  function TryParse(s: string): Option<Int32> {
    match ParseInt(s)
    case None => None
    case Some(d) => Some(d.coeff)
  }

  /** The list of knob actions begins with the left amplitude and has neither of the other two. */
  predicate KnobAction(id: ActionId) { id != Undefined && id != Message }

  function Show(row: Row): Cells {
    Cells(row.active, row.rowLabel, NumberText(row.value), NumberText(row.channel), NumberText(row.controller),
          if row.actionType != Knob then None
          else Some(if KnobAction(row.actionId) then row.actionId else KnobPresetAmpL),
          if row.actionType == Button then row.actionText else "",
          row.increment)
  }

  function Parsed(text: string, kept: Option<Int32>): Option<Int32> {
    if TryParse(text).Some? then TryParse(text) else kept
  }

  /** UpdateRowData: what the controls make of the stored row. */
  function WriteBack(row: Row, cells: Cells): Row {
    row.(actionId := if cells.selected.Some? then cells.selected.value else row.actionId,
         rowLabel := cells.rowLabel,
         channel := Parsed(cells.channel, row.channel),
         value := if row.actionType == Knob then Some(0) else Parsed(cells.value, row.value),
         controller := Parsed(cells.controller, row.controller),
         active := cells.active,
         increment := cells.increment,
         actionText := if row.actionType == Button then cells.actionText else "")
  }

  /** The increment proposed when an action is selected. */
  function DefaultIncrement(row: Row, current: string): string {
    if row.actionType != Knob then ""
    else match row.actionId
      case KnobPresetAmpL | KnobPresetAmpR | KnobSettingsTime | KnobSettingsFPS => "0.1"
      case KnobMessageBPM | KnobMessageBeats => "1.0"
      case Undefined | Message => current
      case _ => "0.02"
  }

  /** A knob has a knob action and no value; only a button has a text. */
  predicate Canonical(row: Row) {
    && (row.actionType == Knob ==> KnobAction(row.actionId) && row.value == Some(0))
    && (row.actionType != Button ==> row.actionText == "")
  }

  lemma ParseNumberText(n: Option<Int32>)
    ensures TryParse(NumberText(n)) == n
  {
    if n.Some? {
      PrintParseInt(Dec(n.value, 0));
    } else {
      assert ParseUnsigned("") == None;
    }
  }

  /** Showing a row and writing the controls back restores exactly the canonical rows. */
  lemma ShowWriteBack(row: Row)
    ensures WriteBack(row, Show(row)) == row <==> Canonical(row)
  {
    hide TryParse, NumberText;
    ParseNumberText(row.value);
    ParseNumberText(row.channel);
    ParseNumberText(row.controller);
  }

  /** The list of knob actions offers an entry for a knob and none for anything else. */
  predicate Offered(row: Row, cells: Cells) {
    if row.actionType == Knob then cells.selected.Some? && KnobAction(cells.selected.value) else cells.selected == None
  }

  /** The list offers twelve actions, all of them but the two that are no knob's. */
  lemma KnobActions(id: ActionId)
    ensures KnobAction(id) <==>
              id in {KnobPresetAmpL, KnobPresetAmpR, KnobMessageBPM, KnobMessageBeats} ||
              id in {KnobSettingsTime, KnobSettingsFPS, KnobSettingsIntensity, KnobSettingsShift} ||
              id in {KnobSettingsQuality, KnobSettingsHue, KnobSettingsSaturation, KnobSettingsBrightness}
  {
  }

  /** What the boxes show of the three numbers: nothing for none, and otherwise the number. */
  predicate Shows(text: string, n: Option<Int32>) {
    if n.None? then text == "" else text == Print(Dec(n.value, 0))
  }

  /** What is edited in the controls of a row is what the row shows once it has been written: label, mark, action,
      increment and the numbers of a message; a knob shows the value 0, and only a button its text. */
  lemma EditedIsShown(row: Row, cells: Cells, value: Int32, channel: Int32, controller: Int32)
    requires Offered(row, cells)
    requires Shows(cells.value, Some(value)) && Shows(cells.channel, Some(channel))
    requires Shows(cells.controller, Some(controller))
    ensures var shown := Show(WriteBack(row, cells));
            && shown.rowLabel == cells.rowLabel && shown.active == cells.active && shown.increment == cells.increment
            && shown.selected == cells.selected
            && shown.channel == cells.channel && shown.controller == cells.controller
            && shown.value == (if row.actionType == Knob then "0" else cells.value)
            && shown.actionText == (if row.actionType == Button then cells.actionText else "")
  {
    hide TryParse, NumberText, Print, Digits;
    NumberShown(value);
    NumberShown(channel);
    NumberShown(controller);
    if row.actionType == Knob { ZeroShown(); }
  }

  lemma NumberShown(n: Int32)
    ensures NumberText(Some(n)) == Print(Dec(n, 0)) && TryParse(Print(Dec(n, 0))) == Some(n)
  {
    ParseNumberText(Some(n));
  }

  lemma ZeroShown()
    ensures NumberText(Some(0)) == "0"
  {
    assert Digits(0) == "0";
  }

  /** A stored number that is missing is shown as nothing, and no other text is shown for a row without type. */
  lemma EmptyShown(row: Row)
    ensures Shows(Show(row).value, row.value) && Shows(Show(row).channel, row.channel)
    ensures Shows(Show(row).controller, row.controller)
    ensures row.actionType != Button ==> Show(row).actionText == ""
  {
  }

  /** A knob with a value, as a saved file may hold it: writing the shown row back clears the value. */
  lemma KnobValueIsLost(row: Row)
    requires row.actionType == Knob && row.value == Some(64)
    ensures WriteBack(row, Show(row)) != row && WriteBack(row, Show(row)).value == Some(0)
  {
    ShowWriteBack(row);
  }

  /** Only a knob has something selected, if anything. */
  predicate Admissible(row: Row, cells: Cells) {
    cells.selected.Some? ==> row.actionType == Knob && KnobAction(cells.selected.value)
  }

  lemma ShownIsOffered(row: Row)
    ensures Offered(row, Show(row)) && Admissible(row, Show(row))
  {
  }

  /** For a knob the box of actions is a drop-down list, for a button it is not. */
  predicate Fits(row: Row, cells: Cells, isList: bool) {
    Admissible(row, cells) && (row.actionType == Knob ==> isList) && (row.actionType == Button ==> !isList)
  }

  /** Showing a row makes its box a list for a knob and a text box for a button; without a type it stays. */
  predicate ListAfter(row: Row, isList: bool) {
    if row.actionType == UndefinedType then isList else row.actionType == Knob
  }

  lemma FitsIgnores(row: Row, a: Cells, b: Cells, isList: bool)
    requires a.selected == b.selected
    ensures Fits(row, a, isList) == Fits(row, b, isList)
  {
  }

  lemma WrittenFits(row: Row, cells: Cells, isList: bool)
    requires Fits(row, cells, isList)
    ensures Fits(WriteBack(row, cells), cells, isList)
  {
  }

  /** Whatever is edited, the row written is canonical, so showing it and writing it again changes nothing. */
  lemma WrittenIsCanonical(row: Row, cells: Cells)
    requires Offered(row, cells)
    ensures Canonical(WriteBack(row, cells)) && Offered(WriteBack(row, cells), cells)
    ensures WriteBack(WriteBack(row, cells), Show(WriteBack(row, cells))) == WriteBack(row, cells)
  {
    ShowWriteBack(WriteBack(row, cells));
  }

  /** Controls written twice, with another increment the second time. */
  lemma WriteBackTwice(row: Row, cells: Cells, increment: string)
    ensures WriteBack(WriteBack(row, cells), cells.(increment := increment))
         == WriteBack(row, cells.(increment := increment))
  {
    hide TryParse;
  }

  /** What the handler of a selected action makes of the controls: the box is checked and an increment proposed
      by the stored row of the first bank, whatever bank is shown. */
  function SelectedCells(rows: seq<Row>, rowIndex: nat, index: nat, cells: Cells): Cells
    requires 1 <= rowIndex <= |rows| && index < |rows|
  {
    var c := cells.(active := true);
    var first := rows[index := WriteBack(rows[index], c)][rowIndex - 1];
    c.(increment := DefaultIncrement(first, c.increment))
  }

  /** The row is checked, and the increment is the one for its action, of all rows the first bank's. */
  lemma SelectedIsActive(rows: seq<Row>, rowIndex: nat, index: nat, cells: Cells)
    requires 1 <= rowIndex <= |rows| && index < |rows|
    ensures var c := SelectedCells(rows, rowIndex, index, cells);
            var first := if index == rowIndex - 1 then WriteBack(rows[index], cells.(active := true))
                         else rows[rowIndex - 1];
            && c == cells.(active := true, increment := c.increment)
            && (first.actionType != Knob ==> c.increment == "")
            && (first.actionType == Knob && first.actionId in {KnobMessageBPM, KnobMessageBeats} ==>
                  c.increment == "1.0")
            && (first.actionType == Knob && first.actionId in {KnobPresetAmpL, KnobPresetAmpR, KnobSettingsTime} ==>
                  c.increment == "0.1")
            && (first.actionType == Knob && first.actionId in {KnobSettingsHue, KnobSettingsShift} ==>
                  c.increment == "0.02")
  {
    hide WriteBack;
  }

  // ----- Learning -----

  /** A note is sent with controller 0, a turned knob with its own. */
  datatype Note = Note(channel: Int32, value: Int32, controller: Int32)

  const BUTTON_LABEL := "Button/Note"
  const KNOB_LABEL := "Knob/Fader"

  /** A label of the user's own is kept. */
  function LearnedLabel(current: string, note: Note): string {
    if current in {"", BUTTON_LABEL, KNOB_LABEL} then if note.controller == 0 then BUTTON_LABEL else KNOB_LABEL
    else current
  }

  /** Learning again, a knob where there was a note or the other way round, renames only what learning named. */
  lemma LabelLearned(current: string, first: Note, second: Note)
    ensures var once := LearnedLabel(current, first);
            (once == current || once == if first.controller == 0 then "Button/Note" else "Knob/Fader") &&
            (once == current <== current != "" && current != "Button/Note" && current != "Knob/Fader") &&
            once != "" && LearnedLabel(once, second) == LearnedLabel(current, second) &&
            (current == "" ==>
               LearnedLabel(once, second) == if second.controller == 0 then "Button/Note" else "Knob/Fader")
  {
  }

  function LearnedCells(cells: Cells, note: Note): Cells {
    cells.(rowLabel := LearnedLabel(cells.rowLabel, note), channel := NumberText(Some(note.channel)),
           value := NumberText(Some(note.value)), controller := NumberText(Some(note.controller)))
  }

  /** The row is written before its type is set. */
  function LearnedRow(row: Row, cells: Cells, note: Note): Row {
    WriteBack(row, LearnedCells(cells, note)).(actionType := if note.controller == 0 then Button else Knob)
  }

  /** Once it is active, the row runs its action for this note. */
  predicate Answers(row: Row, note: Note) {
    row.channel == Some(note.channel) && row.controller == Some(note.controller) &&
    (note.controller == 0 ==> row.value == Some(note.value))
  }

  /** A row answers the note it has learned exactly when the note is a knob's, or the row was no knob before,
      or the note is number 0: a knob's row is written without a value. */
  lemma LearnedAnswers(row: Row, cells: Cells, note: Note)
    ensures LearnedRow(row, cells, note).actionType == if note.controller == 0 then Button else Knob
    ensures Answers(LearnedRow(row, cells, note), note) <==>
              note.controller != 0 || row.actionType != Knob || note.value == 0
  {
    hide NumberText, TryParse;
    ParseNumberText(Some(note.channel));
    ParseNumberText(Some(note.value));
    ParseNumberText(Some(note.controller));
  }

  /** Middle C, learned on a row that was a knob's: the row answers note 0 instead. */
  lemma NoteLearnedOnKnobRow(row: Row, cells: Cells)
    requires row.actionType == Knob
    ensures var learned := LearnedRow(row, cells, Note(1, 60, 0));
            !Answers(learned, Note(1, 60, 0)) && Answers(learned, Note(1, 0, 0))
  {
    hide NumberText, TryParse;
    LearnedAnswers(row, cells, Note(1, 60, 0));
    ParseNumberText(Some(1));
    ParseNumberText(Some(0));
  }

  /** A knob is learned while the box of actions already is a list, which is then not filled anew: the row has a
      knob's action afterwards exactly when one was selected or stored. */
  lemma LearnedKnobActs(row: Row, cells: Cells, note: Note)
    requires Admissible(row, cells) && note.controller != 0
    ensures KnobAction(LearnedRow(row, cells, note).actionId) <==> cells.selected.Some? || KnobAction(row.actionId)
  {
  }

  /** Controls written once for the new label and once more for the rest. */
  lemma WriteLabelFirst(row: Row, cells: Cells, note: Note)
    ensures WriteBack(WriteBack(row, cells.(rowLabel := LearnedLabel(cells.rowLabel, note))), LearnedCells(cells, note))
         == WriteBack(row, LearnedCells(cells, note))
  {
    hide NumberText, TryParse;
    ParseNumberText(Some(note.channel));
    ParseNumberText(Some(note.value));
    ParseNumberText(Some(note.controller));
  }

  // ----- The Learn boxes -----

  /** At most one box is checked. */
  predicate AtMostOne(learn: seq<bool>) {
    forall i, j :: 0 <= i < j < |learn| ==> !(learn[i] && learn[j])
  }

  /** Only this box is checked; none for 0. */
  function Only(index: nat): (r: seq<bool>)
    ensures |r| == ROWS && AtMostOne(r)
  {
    [index == 1, index == 2, index == 3, index == 4, index == 5]
  }

  // ----- The form -----

  class MidiTab {
    var midiRows: seq<Row>
    var bank: nat
    var cells: seq<Cells>
    var isList: seq<bool>  // the box of actions is a drop-down list, as for a knob
    var learn: seq<bool>
    var allowMidiRowDataUpdate: bool

    predicate Sized() reads this {
      |midiRows| == ROWS * BANKS && |cells| == |isList| == |learn| == ROWS && 1 <= bank <= BANKS
    }

    predicate Valid() reads this {
      Sized() && forall r :: 1 <= r <= ROWS ==> Fits(midiRows[DataIndex(r, bank)], cells[r - 1], isList[r - 1])
    }

    constructor (midiRows: seq<Row>)
      requires |midiRows| == ROWS * BANKS
      ensures Valid() && allowMidiRowDataUpdate && AtMostOne(learn) && this.midiRows == midiRows && bank == 1
      ensures forall r :: 1 <= r <= ROWS ==> cells[r - 1] == Show(midiRows[DataIndex(r, 1)])
    {
      this.midiRows, bank, allowMidiRowDataUpdate := midiRows, 1, true;
      learn, isList := Only(0), [false, false, false, false, false];
      var blank := Cells(false, "", "", "", "", None, "", "");
      cells := [blank, blank, blank, blank, blank];
      new;
      FillRowsFromData();
    }

    /** Writes one row of controls to the row it stands for, and no other; nothing while the flag is cleared,
        whatever the controls show then. */
    method UpdateRowData(rowIndex: nat)
      requires Sized() && 1 <= rowIndex <= ROWS && (allowMidiRowDataUpdate ==> Valid())
      modifies this`midiRows
      ensures Sized() && (allowMidiRowDataUpdate ==> Valid())
      ensures !allowMidiRowDataUpdate ==> midiRows == old(midiRows)
      ensures allowMidiRowDataUpdate ==>
                var index := DataIndex(rowIndex, bank);
                midiRows == old(midiRows)[index := WriteBack(old(midiRows)[index], cells[rowIndex - 1])] &&
                (Offered(old(midiRows)[index], cells[rowIndex - 1]) ==> Canonical(midiRows[index]))
    {
      if !allowMidiRowDataUpdate { return; }
      hide WriteBack, Offered, Canonical, Fits;
      var dataRowIndex := (rowIndex - 1) + (bank - 1) * ROWS;
      assert dataRowIndex == DataIndex(rowIndex, bank);
      WrittenFits(midiRows[dataRowIndex], cells[rowIndex - 1], isList[rowIndex - 1]);
      if Offered(midiRows[dataRowIndex], cells[rowIndex - 1]) {
        WrittenIsCanonical(midiRows[dataRowIndex], cells[rowIndex - 1]);
      }
      var row := Update(midiRows[dataRowIndex], cells[rowIndex - 1]);
      midiRows := midiRows[dataRowIndex := row];
    }

    /** The assignments to the fields of the row, one after the other. */
    static method Update(before: Row, c: Cells) returns (row: Row)
      ensures row == WriteBack(before, c)
    {
      hide TryParse;
      row := before;
      if c.selected.Some? { row := row.(actionId := c.selected.value); }
      row := row.(rowLabel := c.rowLabel);
      var channel := TryParse(c.channel);
      if channel.Some? { row := row.(channel := channel); }
      if row.actionType == Knob {
        row := row.(value := Some(0));
      } else {
        var value := TryParse(c.value);
        if value.Some? { row := row.(value := value); }
      }
      var controller := TryParse(c.controller);
      if controller.Some? { row := row.(controller := controller); }
      row := row.(active := c.active, increment := c.increment);
      row := row.(actionText := if row.actionType == Button then c.actionText else "");
    }

    /** Editing a label, an increment, the Active box or the action of a visible row. */
    method Edited(rowIndex: nat, changed: Cells)
      requires Valid() && 1 <= rowIndex <= ROWS && allowMidiRowDataUpdate
      requires Admissible(midiRows[DataIndex(rowIndex, bank)], changed)
      modifies this`midiRows, this`cells
      ensures Valid() && cells == old(cells)[rowIndex - 1 := changed]
      ensures var index := DataIndex(rowIndex, bank);
              midiRows == old(midiRows)[index := WriteBack(old(midiRows)[index], changed)]
    {
      cells := cells[rowIndex - 1 := changed];
      UpdateRowData(rowIndex);
    }

    /** Setting a control of a row raises its event when that changes it. */
    method SetControl(rowIndex: nat, changed: Cells)
      requires Sized() && 1 <= rowIndex <= ROWS && !allowMidiRowDataUpdate
      modifies this`midiRows, this`cells
      ensures Sized() && midiRows == old(midiRows) && cells == old(cells)[rowIndex - 1 := changed]
    {
      if cells[rowIndex - 1] != changed {
        cells := cells[rowIndex - 1 := changed];
        UpdateRowData(rowIndex);
      }
    }

    /** The same for the action list. */
    method SetAction(rowIndex: nat, changed: Cells)
      requires Sized() && 1 <= rowIndex <= ROWS && !allowMidiRowDataUpdate
      modifies this`midiRows, this`cells, this`allowMidiRowDataUpdate
      ensures Sized() && midiRows == old(midiRows) && cells == old(cells)[rowIndex - 1 := changed]
      ensures !allowMidiRowDataUpdate
    {
      if cells[rowIndex - 1] != changed {
        cells := cells[rowIndex - 1 := changed];
        ActionSelected(rowIndex);
      }
    }

    /** The increment is set with the flag cleared, so its event writes nothing. */
    method ProposeIncrement(rowIndex: nat)
      requires Sized() && 1 <= rowIndex <= ROWS && allowMidiRowDataUpdate
      modifies this`midiRows, this`cells, this`allowMidiRowDataUpdate
      ensures Sized() && allowMidiRowDataUpdate && midiRows == old(midiRows)
      ensures var c := old(cells)[rowIndex - 1];
              cells == old(cells)[rowIndex - 1 :=
                c.(increment := DefaultIncrement(midiRows[rowIndex - 1], c.increment))]
      ensures var first, increment := midiRows[rowIndex - 1], cells[rowIndex - 1].increment;
              && (first.actionType != Knob ==> increment == "")
              && (first.actionType == Knob ==>
                    && (first.actionId in {KnobPresetAmpL, KnobPresetAmpR, KnobSettingsTime, KnobSettingsFPS} ==>
                          increment == "0.1")
                    && (first.actionId in {KnobMessageBPM, KnobMessageBeats} ==> increment == "1.0")
                    && (first.actionId in {KnobSettingsIntensity, KnobSettingsShift, KnobSettingsQuality} ==>
                          increment == "0.02")
                    && (first.actionId in {KnobSettingsHue, KnobSettingsSaturation, KnobSettingsBrightness} ==>
                          increment == "0.02")
                    && (first.actionId in {Undefined, Message} ==> increment == old(cells)[rowIndex - 1].increment))
    {
      allowMidiRowDataUpdate := false;
      var increment := DefaultIncrement(midiRows[rowIndex - 1], cells[rowIndex - 1].increment);
      SetControl(rowIndex, cells[rowIndex - 1].(increment := increment));
      allowMidiRowDataUpdate := true;
    }

    /** Selecting an action checks the row's box, proposes an increment and writes the row. */
    method ActionSelected(rowIndex: nat)
      requires Sized() && 1 <= rowIndex <= ROWS && (allowMidiRowDataUpdate ==> Valid())
      modifies this`midiRows, this`cells, this`allowMidiRowDataUpdate
      ensures Sized() && allowMidiRowDataUpdate == old(allowMidiRowDataUpdate)
      ensures !allowMidiRowDataUpdate ==> midiRows == old(midiRows) && cells == old(cells)
      ensures allowMidiRowDataUpdate ==>
                var index := DataIndex(rowIndex, bank);
                var c := SelectedCells(old(midiRows), rowIndex, index, old(cells)[rowIndex - 1]);
                Valid() && cells == old(cells)[rowIndex - 1 := c] &&
                midiRows == old(midiRows)[index := WriteBack(old(midiRows)[index], c)]
    {
      if !allowMidiRowDataUpdate { return; }
      hide WriteBack, Canonical, Offered, Fits, TryParse, DefaultIncrement;
      cells := cells[rowIndex - 1 := cells[rowIndex - 1].(active := true)];
      ghost var c, row := cells[rowIndex - 1], midiRows[DataIndex(rowIndex, bank)];
      FitsIgnores(row, old(cells)[rowIndex - 1], c, isList[rowIndex - 1]);
      UpdateRowData(rowIndex);
      ProposeIncrement(rowIndex);
      FitsIgnores(WriteBack(row, c), c, cells[rowIndex - 1], isList[rowIndex - 1]);
      UpdateRowData(rowIndex);
      WriteBackTwice(row, c, cells[rowIndex - 1].increment);
    }

    /** Every row but this one fits its controls. */
    predicate OthersFit(rowIndex: nat)
      requires Sized()
      reads this
    {
      forall r :: 1 <= r <= ROWS && r != rowIndex ==> Fits(midiRows[DataIndex(r, bank)], cells[r - 1], isList[r - 1])
    }

    /** Makes the box the list of knob actions and selects the first, which raises the event; a box that is a
        list already is left as it is, unless forced. */
    method PopulateForKnob(rowIndex: nat, force: bool)
      requires Sized() && 1 <= rowIndex <= ROWS
      requires allowMidiRowDataUpdate ==> OthersFit(rowIndex) && midiRows[DataIndex(rowIndex, bank)].actionType == Knob
      modifies this`midiRows, this`cells, this`isList, this`allowMidiRowDataUpdate
      ensures Sized() && isList == old(isList)[rowIndex - 1 := true]
      ensures allowMidiRowDataUpdate == old(allowMidiRowDataUpdate)
      ensures !force && old(isList)[rowIndex - 1] ==> midiRows == old(midiRows) && cells == old(cells)
      ensures force || !old(isList)[rowIndex - 1] ==>
                var index := DataIndex(rowIndex, bank);
                var first := old(cells)[rowIndex - 1].(selected := Some(KnobPresetAmpL), actionText := "");
                var c := SelectedCells(old(midiRows), rowIndex, index, first);
                if allowMidiRowDataUpdate then
                  Valid() && cells == old(cells)[rowIndex - 1 := c] &&
                  midiRows == old(midiRows)[index := WriteBack(old(midiRows)[index], c)]
                else cells == old(cells)[rowIndex - 1 := first] && midiRows == old(midiRows)
    {
      hide SelectedCells, WriteBack;
      if !isList[rowIndex - 1] || force {
        isList := isList[rowIndex - 1 := true];
        cells := cells[rowIndex - 1 := cells[rowIndex - 1].(selected := None, actionText := "")];
        cells := cells[rowIndex - 1 := cells[rowIndex - 1].(selected := Some(KnobPresetAmpL))];
        ActionSelected(rowIndex);
      }
    }

    /** Makes the box a text box with suggestions; a text that is there already stays, unless forced. */
    method PopulateForButton(rowIndex: nat, force: bool)
      requires Sized() && 1 <= rowIndex <= ROWS
      modifies this`cells, this`isList
      ensures Sized() && isList == old(isList)[rowIndex - 1 := false]
      ensures var c := old(cells)[rowIndex - 1];
              var text := if force || old(isList)[rowIndex - 1] then "" else c.actionText;
              cells == old(cells)[rowIndex - 1 := c.(selected := None, actionText := text)]
    {
      if isList[rowIndex - 1] || force {
        isList := isList[rowIndex - 1 := false];
        cells := cells[rowIndex - 1 := cells[rowIndex - 1].(actionText := "")];
      }
      cells := cells[rowIndex - 1 := cells[rowIndex - 1].(selected := None)];
    }

    /** One round: the text boxes, the Active box, and the box of actions, which is emptied and filled anew. */
    method FillRow(rowIndex: nat, row: Row)
      requires Sized() && 1 <= rowIndex <= ROWS && !allowMidiRowDataUpdate
      modifies this`midiRows, this`cells, this`isList, this`allowMidiRowDataUpdate
      ensures Sized() && !allowMidiRowDataUpdate && midiRows == old(midiRows)
      ensures cells == old(cells)[rowIndex - 1 := Show(row)]
      ensures isList == old(isList)[rowIndex - 1 := ListAfter(row, old(isList)[rowIndex - 1])]
    {
      hide NumberText, SelectedCells;
      var i := rowIndex - 1;
      SetControl(rowIndex, cells[i].(rowLabel := row.rowLabel));
      cells := cells[i := cells[i].(channel := NumberText(row.channel))];
      cells := cells[i := cells[i].(value := NumberText(row.value))];
      cells := cells[i := cells[i].(controller := NumberText(row.controller))];
      SetControl(rowIndex, cells[i].(active := row.active));
      SetControl(rowIndex, cells[i].(increment := row.increment));
      SetAction(rowIndex, cells[i].(selected := None, actionText := ""));
      if row.actionType == Button {
        PopulateForButton(rowIndex, true);
        SetAction(rowIndex, cells[i].(actionText := row.actionText));
      } else if row.actionType == Knob {
        PopulateForKnob(rowIndex, true);
        if KnobAction(row.actionId) { SetAction(rowIndex, cells[i].(selected := Some(row.actionId))); }
      }
    }

    /** Every control is set in turn and raises its event; the cleared flag alone keeps the rows. */
    method FillRowsFromData()
      requires Sized()
      modifies this`midiRows, this`cells, this`isList, this`allowMidiRowDataUpdate
      ensures Valid() && allowMidiRowDataUpdate && midiRows == old(midiRows)
      ensures forall r :: 1 <= r <= ROWS ==> cells[r - 1] == Show(midiRows[DataIndex(r, bank)])
      ensures forall r :: 1 <= r <= ROWS && midiRows[DataIndex(r, bank)].actionType == UndefinedType ==>
                isList[r - 1] == old(isList)[r - 1]
    {
      hide Show, Offered, Admissible;
      allowMidiRowDataUpdate := false;
      var dataIndex := (bank - 1) * ROWS;
      for rowIndex := 1 to ROWS + 1
        invariant Sized() && dataIndex == DataIndex(rowIndex, bank) && !allowMidiRowDataUpdate
        invariant midiRows == old(midiRows)
        invariant forall r :: 1 <= r < rowIndex ==> cells[r - 1] == Show(midiRows[DataIndex(r, bank)])
        invariant forall k :: rowIndex - 1 <= k < ROWS ==> isList[k] == old(isList)[k]
        invariant forall r :: 1 <= r < rowIndex ==>
                    isList[r - 1] == ListAfter(midiRows[DataIndex(r, bank)], old(isList)[r - 1])
      {
        FillRow(rowIndex, midiRows[dataIndex]);
        dataIndex := dataIndex + 1;
      }
      allowMidiRowDataUpdate := true;
      forall r | 1 <= r <= ROWS ensures Fits(midiRows[DataIndex(r, bank)], cells[r - 1], isList[r - 1]) {
        ShownIsOffered(midiRows[DataIndex(r, bank)]);
      }
    }

    /** The controls of the learning row show the message, and the row is written, with its old type. */
    method ShowMessage(rowIndex: nat, note: Note)
      requires Valid() && 1 <= rowIndex <= ROWS && allowMidiRowDataUpdate
      modifies this`midiRows, this`cells
      ensures Valid() && cells == old(cells)[rowIndex - 1 := LearnedCells(old(cells)[rowIndex - 1], note)]
      ensures var index := DataIndex(rowIndex, bank);
              midiRows == old(midiRows)[index := WriteBack(old(midiRows)[index], cells[rowIndex - 1])]
    {
      hide WriteBack, NumberText, Offered, Canonical, Fits, LearnedLabel;
      var i := rowIndex - 1;
      ghost var c, row := cells[i], midiRows[DataIndex(rowIndex, bank)];
      var rowLabel := LearnedLabel(cells[i].rowLabel, note);
      FitsIgnores(row, c, c.(rowLabel := rowLabel), isList[i]);
      if rowLabel != cells[i].rowLabel {
        cells := cells[i := cells[i].(rowLabel := rowLabel)];
        UpdateRowData(rowIndex);
      }
      FitsIgnores(midiRows[DataIndex(rowIndex, bank)], cells[i], LearnedCells(c, note), isList[i]);
      cells := cells[i := cells[i].(channel := NumberText(Some(note.channel)))];
      cells := cells[i := cells[i].(value := NumberText(Some(note.value)))];
      cells := cells[i := cells[i].(controller := NumberText(Some(note.controller)))];
      UpdateRowData(rowIndex);
      WriteLabelFirst(row, c, note);
    }

    method UpdateRowDataActionType(rowIndex: nat, actionType: ActionType)
      requires Sized() && 1 <= rowIndex <= ROWS
      modifies this`midiRows
      ensures var index := DataIndex(rowIndex, bank);
              midiRows == if !allowMidiRowDataUpdate then old(midiRows)
                          else old(midiRows)[index := old(midiRows)[index].(actionType := actionType)]
    {
      if !allowMidiRowDataUpdate { return; }
      var dataRowIndex := (rowIndex - 1) + (bank - 1) * ROWS;
      midiRows := midiRows[dataRowIndex := midiRows[dataRowIndex].(actionType := actionType)];
    }

    /** A message arrives while this row learns: it is shown and written, and only then the type of the row is
        set and the box of actions prepared for it. */
    method MessageLearned(rowIndex: nat, note: Note)
      requires Valid() && 1 <= rowIndex <= ROWS && allowMidiRowDataUpdate
      modifies this`midiRows, this`cells, this`isList, this`allowMidiRowDataUpdate
      ensures Valid() && allowMidiRowDataUpdate
      ensures isList == old(isList)[rowIndex - 1 := note.controller != 0]
      ensures var index, was, c := DataIndex(rowIndex, bank), old(isList)[rowIndex - 1], old(cells)[rowIndex - 1];
              var learned, shown := LearnedRow(old(midiRows)[index], c, note), LearnedCells(c, note);
              var rows := old(midiRows)[index := learned];
              if note.controller == 0 then
                midiRows == rows &&
                cells == old(cells)[rowIndex - 1 :=
                  shown.(selected := None, actionText := if was then "" else shown.actionText)]
              else if was then midiRows == rows && cells == old(cells)[rowIndex - 1 := shown]
              else
                var first := shown.(selected := Some(KnobPresetAmpL), actionText := "");
                cells == old(cells)[rowIndex - 1 := SelectedCells(rows, rowIndex, index, first)] &&
                midiRows == rows[index := WriteBack(learned, cells[rowIndex - 1])]
    {
      hide WriteBack, Offered, SelectedCells, LearnedCells;
      ShowMessage(rowIndex, note);
      UpdateRowDataActionType(rowIndex, if note.controller == 0 then Button else Knob);
      ghost var index := DataIndex(rowIndex, bank);
      assert midiRows == old(midiRows)[index := LearnedRow(old(midiRows)[index], old(cells)[rowIndex - 1], note)];
      if note.controller == 0 { PopulateForButton(rowIndex, false); } else { PopulateForKnob(rowIndex, false); }
    }

    /** Switching banks shows the rows of the new bank, changes none of them, and ends learning. */
    method BankChanged(newBank: nat)
      requires Valid() && 1 <= newBank <= BANKS
      modifies this
      ensures Valid() && bank == newBank && midiRows == old(midiRows) && allowMidiRowDataUpdate
      ensures forall r :: 1 <= r <= ROWS ==> cells[r - 1] == Show(midiRows[DataIndex(r, newBank)])
      ensures learn == Only(0)
    {
      bank := newBank;
      SetLearn(1, false);
      SetLearn(2, false);
      SetLearn(3, false);
      SetLearn(4, false);
      SetLearn(5, false);
      FillRowsFromData();
    }

    /** Setting a Learn box raises its event only when that changes the box. */
    method SetLearn(index: nat, value: bool)
      requires |learn| == ROWS && 1 <= index <= ROWS
      modifies this`learn
      ensures learn == if value && !old(learn)[index - 1] then Only(index) else old(learn)[index - 1 := value]
      ensures old(AtMostOne(learn)) ==> AtMostOne(learn)
      decreases if value then 3 else 1
    {
      if learn[index - 1] != value {
        learn := learn[index - 1 := value];
        LearnChanged(index);
      }
    }

    /** A box that was checked unchecks the others, one event inside the other. */
    method LearnChanged(index: nat)
      requires |learn| == ROWS && 1 <= index <= ROWS
      modifies this`learn
      ensures learn == if old(learn)[index - 1] then Only(index) else old(learn)
      decreases if learn[index - 1] then 2 else 0
    {
      if learn[index - 1] {
        if index != 1 { SetLearn(1, false); }
        if index != 2 { SetLearn(2, false); }
        if index != 3 { SetLearn(3, false); }
        if index != 4 { SetLearn(4, false); }
        if index != 5 { SetLearn(5, false); }
      }
    }

    /** The row that learns, or 0. */
    method GetLearningRowIndex() returns (rowIndex: nat)
      requires |learn| == ROWS
      ensures AtMostOne(learn) ==> rowIndex <= ROWS && learn == Only(rowIndex)
    {
      if learn[0] { return 1; }
      if learn[1] { return 2; }
      if learn[2] { return 3; }
      if learn[3] { return 4; }
      if learn[4] { return 5; }
      return 0;
    }
  }
}
