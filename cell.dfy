/** The grid's data cells: the editable cell of the editable dashboard (a
    small state machine over `isEditing`, `editValue` and `isSaving`), the
    input-cleaning rule applied on save, the null/zero display rules, and
    the read-only cell of the other dashboard. */
module Cells {
  import opened Wrappers
  import opened Fields
  import opened Annotations

  /** The three fields no user may edit; every other column is editable by
      an admin. */
  predicate IsEditable(isAdmin: bool, field: Field)
    ensures !isAdmin ==> !IsEditable(isAdmin, field)
    ensures IsIdentity(field) ==> !IsEditable(isAdmin, field)
    ensures isAdmin && !IsIdentity(field) ==>
              (IsEditable(isAdmin, field) <==> field != CurrentVsPriorContractVariance)
  {
    isAdmin && field != JobNumber && field != ProjectName && field != CurrentVsPriorContractVariance
  }

  /** The two identifying columns, drawn as plain text in both dashboards. */
  predicate IsIdentity(field: Field) {
    field == JobNumber || field == ProjectName
  }

  /** Identity columns are never editable. */
  lemma IdentityNotEditable(isAdmin: bool, field: Field)
    requires IsIdentity(field)
    ensures !IsEditable(isAdmin, field)
  {
  }

  // ----- cleaning and parsing the draft -----

  predicate IsNumberSymbol(c: char) {
    c == '$' || c == ',' || c == '%'
  }

  /** `s.replace(/[$,%]/g, '')`. */
  function StripNumberSymbols(s: string): (r: string)
    ensures |r| <= |s|
  {
    if s == [] then []
    else if IsNumberSymbol(s[0]) then StripNumberSymbols(s[1..])
    else [s[0]] + StripNumberSymbols(s[1..])
  }

  /** Stripping removes exactly the three symbols: what is left is the
      input's other characters, and all of them. */
  lemma {:induction false} StripContents(s: string)
    ensures forall c :: c in StripNumberSymbols(s) <==> c in s && !IsNumberSymbol(c)
    decreases |s|
  {
    if s != [] {
      StripContents(s[1..]);
      assert s == [s[0]] + s[1..];
    }
  }

  /** Stripping works piecewise over a concatenation. */
  lemma {:induction false} StripAppend(a: string, b: string)
    ensures StripNumberSymbols(a + b) == StripNumberSymbols(a) + StripNumberSymbols(b)
    decreases |a|
  {
    if a == [] {
      assert a + b == b;
    } else {
      assert (a + b)[0] == a[0];
      assert (a + b)[1..] == a[1..] + b;
      StripAppend(a[1..], b);
    }
  }

  /** Text without the three symbols is left as it is. */
  lemma {:induction false} StripKeepsPlainText(s: string)
    requires forall c :: c in s ==> !IsNumberSymbol(c)
    ensures StripNumberSymbols(s) == s
    decreases |s|
  {
    if s != [] {
      assert s[0] in s;
      assert forall c :: c in s[1..] ==> c in s;
      StripKeepsPlainText(s[1..]);
    }
  }

  /** Stripping twice is stripping once. */
  lemma StripIdempotent(s: string)
    ensures StripNumberSymbols(StripNumberSymbols(s)) == StripNumberSymbols(s)
  {
    StripContents(s);
    StripKeepsPlainText(StripNumberSymbols(s));
  }

  /** The value a save sends for the field. `ParseFloatOf` stands for
      `parseFloat` of the cleaned text, whose floating-point result is not
      modelled. */
  datatype SaveValue = Null | ParseFloatOf(cleanText: string) | RawDraft(draft: string)

  /** The parse rule of `handleSave`. */
  function ParseDraft(cellType: Option<CellType>, draft: string): (v: SaveValue)
    ensures cellType == Some(Currency) || cellType == Some(Percentage) ==>
              (v == Null <==> forall c :: c in draft ==> IsNumberSymbol(c))
    ensures cellType == Some(Currency) || cellType == Some(Percentage) ==>
              !v.RawDraft? && (v.ParseFloatOf? ==> v.cleanText == StripNumberSymbols(draft))
    ensures !(cellType == Some(Currency) || cellType == Some(Percentage)) ==> v == RawDraft(draft)
  {
    if cellType == Some(Currency) || cellType == Some(Percentage) then
      var clean := StripNumberSymbols(draft);
      assert clean == [] <==> forall c :: c in draft ==> IsNumberSymbol(c) by {
        StripContents(draft);
        if clean != [] { assert clean[0] in clean; }
      }
      if clean == [] then Null else ParseFloatOf(clean)
    else
      RawDraft(draft)
  }

  /** "$12,345" is saved as the number 12345. */
  lemma ParseDollarAmount()
    ensures ParseDraft(Some(Currency), "$12,345") == ParseFloatOf("12345")
    ensures ParseDraft(Some(Currency), "$,%") == Null
  {
    var t := "$12,345";
    assert t[1..] == "12,345" && t[2..] == "2,345" && t[3..] == ",345";
    assert t[4..] == "345" && t[5..] == "45" && t[6..] == "5" && t[7..] == [];
    assert StripNumberSymbols(t[6..]) == "5";
    assert StripNumberSymbols(t[4..]) == "345";
    assert StripNumberSymbols(t[3..]) == "345";
    assert StripNumberSymbols(t) == "12345";
  }

  /** `value?.toString() || ''`: the draft an edit starts from. */
  function DraftOf(value: Value): (d: string)
    ensures value.Absent? ==> d == ""
    ensures !value.Absent? ==> d == value.text
  {
    match value
    case Absent => ""
    case Number(t) => t
    case Text(s) => s
  }

  // ----- display -----

  /** What a cell shows when it is not in edit mode. `CurrencyText` and
      `PercentText` stand for the locale/`toFixed` formatting of the value,
      which is not modelled; only the decisions to show nothing are. */
  datatype Shown = Blank | CurrencyText(amount: Value) | PercentText(percent: Value) | AsIs(raw: Value)

  /** `formatValue(value, type)`. */
  function FormatValue(value: Value, cellType: Option<CellType>): (s: Shown)
    ensures cellType == Some(Currency) ==>
              (s == Blank <==> value.Absent? || value == Number("0")) && (s != Blank ==> s == CurrencyText(value))
    ensures cellType == Some(Percentage) ==>
              (s == Blank <==> value.Absent?) && (s != Blank ==> s == PercentText(value))
    ensures cellType != Some(Currency) && cellType != Some(Percentage) ==>
              (s == Blank <==> !Truthy(value)) && (s != Blank ==> s == AsIs(value))
  {
    match cellType
    case Some(Currency) => if value.Absent? || value == Number("0") then Blank else CurrencyText(value)
    case Some(Percentage) => if value.Absent? then Blank else PercentText(value)
    case _ => if Truthy(value) then AsIs(value) else Blank
  }

  /** A zero percentage is shown ("0.00%"); a zero amount is not. */
  lemma ZeroDisplay()
    ensures FormatValue(Number("0"), Some(Percentage)) == PercentText(Number("0"))
    ensures FormatValue(Number("0"), Some(Currency)) == Blank
  {
  }

  /** The rendered cell. */
  datatype CellView =
    | Plain(value: Value)
    | Display(shown: Shown, editIcon: bool, marks: Marks)
    | Editor(draft: string, saveEnabled: bool, marks: Marks)

  /** The rendering of an editable cell in a given state. */
  function EditableView(value: Value, cellType: Option<CellType>, field: Field, isAdmin: bool,
                        isEditing: bool, editValue: string, isSaving: bool,
                        explanation: Option<Explanation>): (v: CellView)
    ensures IsIdentity(field) <==> v.Plain?
    ensures v.Editor? <==> !IsIdentity(field) && isEditing
    ensures v.Editor? ==> v.draft == editValue && (v.saveEnabled <==> !isSaving)
    ensures v.Display? ==> v.shown == FormatValue(value, cellType) &&
                           (v.editIcon <==> IsEditable(isAdmin, field))
    ensures !v.Plain? ==> v.marks == CellMarks(explanation)
  {
    if IsIdentity(field) then Plain(value)
    else if isEditing then Editor(editValue, !isSaving, CellMarks(explanation))
    else Display(FormatValue(value, cellType), IsEditable(isAdmin, field), CellMarks(explanation))
  }

  /** The read-only dashboard's cell: the identity columns as plain text,
      every other column display-only. */
  function ReadOnlyView(value: Value, cellType: Option<CellType>, field: Field,
                        explanation: Option<Explanation>): (v: CellView)
    ensures !v.Editor?
    ensures v.Display? ==> !v.editIcon
  {
    if IsIdentity(field) then Plain(value)
    else Display(FormatValue(value, cellType), false, CellMarks(explanation))
  }

  /** A read-only cell looks exactly like an editable cell at rest seen by
      a user who is not an admin. */
  lemma ReadOnlyIsViewerAtRest(value: Value, cellType: Option<CellType>, field: Field,
                               editValue: string, isSaving: bool, explanation: Option<Explanation>)
    ensures ReadOnlyView(value, cellType, field, explanation) ==
            EditableView(value, cellType, field, false, false, editValue, isSaving, explanation)
  {
  }

  /** What a save sends to the dashboard's `onSave`. */
  datatype SaveRequest = SaveRequest(wipId: int, field: Field, value: SaveValue)

  const SaveFailedAlert: string := "Failed to save value"

  /** One editable cell of the grid, at one row id and one column. Its
      props stay as they are while it is mounted; a reload shows the
      loading screen, which unmounts every cell, and the cell drawn at the
      same place afterwards starts over with the reloaded value and
      explanation (`Remount`). */
  class EditableCell {
    var value: Value
    const cellType: Option<CellType>
    const field: Field
    const isAdmin: bool
    const wipId: int
    var explanation: Option<Explanation>

    var isEditing: bool
    var editValue: string
    var isSaving: bool

    /** Only editable cells ever enter edit mode. */
    predicate Valid()
      reads this
    {
      isEditing ==> IsEditable(isAdmin, field)
    }

    constructor (value: Value, cellType: Option<CellType>, field: Field, isAdmin: bool,
                 wipId: int, explanation: Option<Explanation>)
      ensures Valid()
      ensures this.value == value && this.cellType == cellType && this.field == field
      ensures this.isAdmin == isAdmin && this.wipId == wipId && this.explanation == explanation
      ensures !isEditing && editValue == "" && !isSaving
    {
      this.value := value;
      this.cellType := cellType;
      this.field := field;
      this.isAdmin := isAdmin;
      this.wipId := wipId;
      this.explanation := explanation;
      isEditing := false;
      editValue := "";
      isSaving := false;
    }

    function View(): (v: CellView)
      reads this
      ensures v == EditableView(value, cellType, field, isAdmin, isEditing, editValue, isSaving, explanation)
      ensures Valid() && v.Editor? ==> IsEditable(isAdmin, field)
    {
      EditableView(value, cellType, field, isAdmin, isEditing, editValue, isSaving, explanation)
    }

    /** A click on the displayed value (`handleEdit`). */
    method Edit()
      requires Valid()
      modifies this
      ensures Valid()
      ensures IsEditable(isAdmin, field) ==>
                isEditing && editValue == DraftOf(value) && isSaving == old(isSaving)
      ensures !IsEditable(isAdmin, field) ==>
                isEditing == old(isEditing) && editValue == old(editValue) && isSaving == old(isSaving)
      ensures value == old(value) && explanation == old(explanation)
    {
      if !IsEditable(isAdmin, field) {
        return;
      }
      editValue := DraftOf(value);
      isEditing := true;
    }

    /** A keystroke in the input. */
    method Change(text: string)
      requires Valid()
      modifies this
      ensures Valid()
      ensures editValue == text
      ensures isEditing == old(isEditing) && isSaving == old(isSaving)
      ensures value == old(value) && explanation == old(explanation)
    {
      editValue := text;
    }

    /** The synchronous part of `handleSave`: mark the cell as saving and
        produce the call to `onSave`. The input, its key handler and the
        Save button are drawn only in edit mode, so every save starts from
        an editing cell. */
    method BeginSave() returns (request: SaveRequest)
      requires Valid() && isEditing
      modifies this
      ensures Valid()
      ensures request == SaveRequest(wipId, field, ParseDraft(cellType, editValue))
      ensures isSaving
      ensures isEditing == old(isEditing) && editValue == old(editValue)
      ensures value == old(value) && explanation == old(explanation)
    {
      isSaving := true;
      request := SaveRequest(wipId, field, ParseDraft(cellType, editValue));
    }

    /** The rest of `handleSave`, once `onSave` has settled: success leaves
        edit mode; failure stays in it with the draft kept and raises the
        alert. Saving ends either way. */
    method FinishSave(succeeded: bool) returns (alert: Option<string>)
      requires Valid()
      modifies this
      ensures Valid()
      ensures !isSaving
      ensures succeeded ==> !isEditing && alert.None?
      ensures !succeeded ==> isEditing == old(isEditing) && alert == Some(SaveFailedAlert)
      ensures editValue == old(editValue) && value == old(value) && explanation == old(explanation)
    {
      if succeeded {
        isEditing := false;
        alert := None;
      } else {
        alert := Some(SaveFailedAlert);
      }
      isSaving := false;
    }

    /** The Save button: disabled while a save is in flight. */
    method ClickSave() returns (request: Option<SaveRequest>)
      requires Valid() && isEditing
      modifies this
      ensures Valid()
      ensures old(isSaving) ==> request.None? && isSaving
      ensures !old(isSaving) ==> request == Some(SaveRequest(wipId, field, ParseDraft(cellType, editValue))) && isSaving
      ensures isEditing == old(isEditing) && editValue == old(editValue)
      ensures value == old(value) && explanation == old(explanation)
    {
      if isSaving {
        request := None;
      } else {
        var r := BeginSave();
        request := Some(r);
      }
    }

    /** `handleCancel`: leave edit mode and clear the draft; nothing is sent. */
    method Cancel()
      requires Valid()
      modifies this
      ensures Valid()
      ensures !isEditing && editValue == ""
      ensures isSaving == old(isSaving) && value == old(value) && explanation == old(explanation)
    {
      isEditing := false;
      editValue := "";
    }

    /** `handleKeyPress`. Enter saves even while a save is in flight;
        Escape cancels; other keys do nothing. */
    method KeyPress(key: string) returns (request: Option<SaveRequest>)
      requires Valid() && isEditing
      modifies this
      ensures Valid()
      ensures key == "Enter" ==>
                request == Some(SaveRequest(wipId, field, ParseDraft(cellType, old(editValue)))) &&
                isSaving && isEditing == old(isEditing) && editValue == old(editValue)
      ensures key == "Escape" ==> request.None? && !isEditing && editValue == "" && isSaving == old(isSaving)
      ensures key != "Enter" && key != "Escape" ==>
                request.None? && isEditing == old(isEditing) && editValue == old(editValue) &&
                isSaving == old(isSaving)
      ensures value == old(value) && explanation == old(explanation)
    {
      if key == "Enter" {
        var r := BeginSave();
        request := Some(r);
      } else if key == "Escape" {
        Cancel();
        request := None;
      } else {
        request := None;
      }
    }

    /** The cell drawn again once a reload has unmounted it: the new value
        and explanation, and the state of a fresh mount, so no draft, edit
        mode or save in flight survives. */
    method Remount(newValue: Value, newExplanation: Option<Explanation>)
      modifies this
      ensures Valid()
      ensures value == newValue && explanation == newExplanation
      ensures !isEditing && editValue == "" && !isSaving
    {
      value := newValue;
      explanation := newExplanation;
      isEditing := false;
      editValue := "";
      isSaving := false;
    }
  }

  /** A non-editable cell ignores the click that would open the editor, so
      it never shows one, and an identity cell shows plain text in every
      state. */
  lemma NonEditableNeverEdits(c: EditableCell)
    requires c.Valid() && !IsEditable(c.isAdmin, c.field)
    ensures !c.isEditing
    ensures !c.View().Editor?
  {
  }
}
