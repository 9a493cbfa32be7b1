/** The comment editor dialog: a draft that is reset whenever the dialog
    opens, a save gated on the trimmed draft, and its keyboard shortcuts. */
module Modal {
  import opened Wrappers
  import opened Annotations
  import Cells

  /** The characters `String.prototype.trim` removes: the WhiteSpace and
      LineTerminator code points of ECMAScript (section 12.2 and 12.3 of
      ECMA-262), i.e. tab, vertical tab, form feed, space, no-break space,
      the byte order mark, the Unicode space separators, and the four line
      terminators. */
  predicate IsJsSpace(c: char) {
    c == '\U{0009}' || c == '\U{000B}' || c == '\U{000C}' || c == '\U{0020}'
    || c == '\U{00A0}' || c == '\U{FEFF}'
    || c == '\U{000A}' || c == '\U{000D}' || c == '\U{2028}' || c == '\U{2029}'
    || c == '\U{1680}' || ('\U{2000}' <= c <= '\U{200A}') || c == '\U{202F}' || c == '\U{205F}'
    || c == '\U{3000}'
  }

  /** How many white-space characters `s` starts with. */
  function LeadingSpaces(s: string): (n: nat)
    ensures n <= |s|
    ensures n < |s| ==> !IsJsSpace(s[n])
  {
    if s == [] || !IsJsSpace(s[0]) then 0 else 1 + LeadingSpaces(s[1..])
  }

  /** How many white-space characters `s` ends with. */
  function TrailingSpaces(s: string): (n: nat)
    ensures n <= |s|
    ensures n < |s| ==> !IsJsSpace(s[|s| - 1 - n])
  {
    if s == [] || !IsJsSpace(s[|s| - 1]) then 0 else 1 + TrailingSpaces(s[..|s| - 1])
  }

  /** The leading run `LeadingSpaces` counts is white space. */
  lemma {:induction false} LeadingAreSpaces(s: string)
    ensures forall k :: 0 <= k < LeadingSpaces(s) ==> IsJsSpace(s[k])
  {
    if s != [] && IsJsSpace(s[0]) {
      LeadingAreSpaces(s[1..]);
      forall k | 1 <= k < LeadingSpaces(s)
        ensures IsJsSpace(s[k])
      {
        assert s[k] == s[1..][k - 1];
      }
    }
  }

  /** The trailing run `TrailingSpaces` counts is white space. */
  lemma {:induction false} TrailingAreSpaces(s: string)
    ensures forall k :: |s| - TrailingSpaces(s) <= k < |s| ==> IsJsSpace(s[k])
  {
    if s != [] && IsJsSpace(s[|s| - 1]) {
      TrailingAreSpaces(s[..|s| - 1]);
      forall k | |s| - TrailingSpaces(s) <= k < |s| - 1
        ensures IsJsSpace(s[k])
      {
        assert s[k] == s[..|s| - 1][k];
      }
    }
  }

  /** `s.trimStart()`: `s` without its leading white space. */
  function TrimStart(s: string): (r: string)
    ensures r == [] || !IsJsSpace(r[0])
  {
    s[LeadingSpaces(s)..]
  }

  /** `s.trimEnd()`: `s` without its trailing white space. */
  function TrimEnd(s: string): (r: string)
    ensures r == [] || !IsJsSpace(r[|r| - 1])
  {
    s[..|s| - TrailingSpaces(s)]
  }

  /** `s.trim()`. */
  function Trim(s: string): (r: string)
    ensures |r| <= |s|
    ensures r == [] || (!IsJsSpace(r[0]) && !IsJsSpace(r[|r| - 1]))
  {
    TrimEnd(TrimStart(s))
  }

  /** Slicing a suffix is slicing the whole string further along. */
  lemma SuffixSlice(s: string, i: nat, n: nat)
    requires i + n <= |s|
    ensures s[i..][..n] == s[i..i + n]
    ensures forall k | i <= k < |s| :: s[k] == s[i..][k - i]
  {
  }

  /** `Trim(s)` is `s` between its leading and trailing runs of white space. */
  lemma TrimIsSlice(s: string)
    ensures LeadingSpaces(s) + |Trim(s)| <= |s|
    ensures Trim(s) == s[LeadingSpaces(s)..LeadingSpaces(s) + |Trim(s)|]
  {
    var i := LeadingSpaces(s);
    var n := |s[i..]| - TrailingSpaces(s[i..]);
    assert Trim(s) == s[i..][..n];
    SuffixSlice(s, i, n);
  }

  /** Trimming cuts white space only: the result is the slice of the input
      between its leading and its trailing white space. */
  lemma TrimShape(s: string)
    ensures var i := LeadingSpaces(s);
            var j := i + |Trim(s)|;
            && j <= |s| && Trim(s) == s[i..j]
            && (forall k :: 0 <= k < i ==> IsJsSpace(s[k]))
            && (forall k :: j <= k < |s| ==> IsJsSpace(s[k]))
  {
    var i := LeadingSpaces(s);
    TrimIsSlice(s);
    LeadingAreSpaces(s);
    TrailingAreSpaces(s[i..]);
    SuffixSlice(s, i, |Trim(s)|);
  }

  /** The save gate: the trimmed draft is non-empty exactly when the draft
      holds a character that is not white space; and a non-empty trimmed
      draft starts and ends with such a character. */
  lemma TrimEmptyIffAllSpace(s: string)
    ensures Trim(s) != [] <==> exists k :: 0 <= k < |s| && !IsJsSpace(s[k])
  {
    var i := LeadingSpaces(s);
    TrimIsSlice(s);
    if Trim(s) != [] {
      assert Trim(s)[0] == s[i];
    } else {
      LeadingAreSpaces(s);
      TrailingAreSpaces(s[i..]);
      SuffixSlice(s, i, 0);
    }
  }

  /** The props the dashboards pass. `fieldValue` is what the clicked cell
      showed. */
  datatype Props = Props(
    isOpen: bool,
    jobNumber: string,
    fieldLabel: string,
    fieldValue: Cells.Shown,
    existingComment: Option<string>,
    existingExplanation: Option<Explanation>)

  /** `existingComment || ''`. */
  function DraftFrom(existing: Option<string>): (d: string)
    ensures existing.Some? ==> d == existing.value
    ensures existing.None? ==> d == ""
  {
    if existing.Some? then existing.value else ""
  }

  /** What a handler asks of its parent: `onSave(text)` and `onClose()`. */
  datatype Effects = Effects(save: Option<string>, close: bool)

  /** The author block: initials and display name of the existing
      explanation's author. */
  datatype Author = Author(initials: string, name: string)

  datatype ModalView = ModalView(
    jobNumber: string,
    fieldLabel: string,
    fieldValue: Cells.Shown,
    author: Option<Author>,
    draft: string,
    saveEnabled: bool)

  /** `comment.trim()` is truthy: the draft holds a character that is not
      white space. */
  predicate CanSave(draft: string)
    ensures CanSave(draft) <==> exists k :: 0 <= k < |draft| && !IsJsSpace(draft[k])
  {
    TrimEmptyIffAllSpace(draft);
    Trim(draft) != []
  }

  class CommentModal {
    var props: Props
    /** The `comment` draft. */
    var comment: string

    constructor (p: Props)
      ensures props == p && comment == DraftFrom(p.existingComment)
    {
      props := p;
      comment := DraftFrom(p.existingComment);
    }

    /** A re-render with new props. The effect keyed on `isOpen` and
        `existingComment` resets the draft when either changed and the
        dialog is open; otherwise the draft is kept. */
    method SetProps(p: Props)
      modifies this
      ensures props == p
      ensures p.isOpen && (p.isOpen != old(props.isOpen) || p.existingComment != old(props.existingComment)) ==>
                comment == DraftFrom(p.existingComment)
      ensures !(p.isOpen && (p.isOpen != old(props.isOpen) || p.existingComment != old(props.existingComment))) ==>
                comment == old(comment)
    {
      var changed := p.isOpen != props.isOpen || p.existingComment != props.existingComment;
      props := p;
      if p.isOpen && changed {
        comment := DraftFrom(p.existingComment);
      }
    }

    /** Typing in the text area. */
    method Change(text: string)
      modifies this
      ensures comment == text && props == old(props)
    {
      comment := text;
    }

    /** `handleSave`: with a non-blank draft, hand the draft, untrimmed, to
        `onSave` and close at once; otherwise do nothing. */
    function HandleSave(): (e: Effects)
      reads this
      ensures CanSave(comment) ==> e == Effects(Some(comment), true)
      ensures !CanSave(comment) ==> e == Effects(None, false)
    {
      if CanSave(comment) then Effects(Some(comment), true) else Effects(None, false)
    }

    /** `handleKeyDown`: Escape closes without saving; Ctrl+Enter or
        Meta+Enter is the Save button. */
    function HandleKeyDown(key: string, ctrlKey: bool, metaKey: bool): (e: Effects)
      reads this
      ensures key == "Escape" ==> e == Effects(None, true)
      ensures key == "Enter" && (ctrlKey || metaKey) ==> e == HandleSave()
      ensures key != "Escape" && !(key == "Enter" && (ctrlKey || metaKey)) ==> e == Effects(None, false)
    {
      if key == "Escape" then Effects(None, true)
      else if key == "Enter" && (ctrlKey || metaKey) then HandleSave()
      else Effects(None, false)
    }

    /** The rendered dialog; nothing at all while closed. */
    function Render(): (v: Option<ModalView>)
      reads this
      ensures v.None? <==> !props.isOpen
      ensures v.Some? ==> (v.value.author.Some? <==> props.existingExplanation.Some?)
      ensures v.Some? && v.value.author.Some? ==>
                v.value.author.value.name == AuthorName(props.existingExplanation.value)
      ensures v.Some? ==> v.value.draft == comment && (v.value.saveEnabled <==> CanSave(comment))
    {
      if !props.isOpen then None
      else
        var author := match props.existingExplanation
          case None => None
          case Some(e) => Some(Author(AuthorInitials(e), AuthorName(e)));
        Some(ModalView(props.jobNumber, props.fieldLabel, props.fieldValue, author,
                       comment, CanSave(comment)))
    }
  }

  /** The Save button is enabled exactly when the save handler would fire,
      so clicking an enabled button always saves and closes. */
  lemma ButtonMatchesHandler(m: CommentModal)
    requires m.props.isOpen
    ensures m.Render().value.saveEnabled <==> m.HandleSave().save.Some?
    ensures m.HandleSave().save.Some? ==> m.HandleSave().close
  {
  }

  /** A draft of white space only never reaches `onSave`, by button or by
      keyboard. */
  lemma BlankDraftNeverSaved(m: CommentModal, key: string, ctrlKey: bool, metaKey: bool)
    requires forall k :: 0 <= k < |m.comment| ==> IsJsSpace(m.comment[k])
    ensures m.HandleSave().save.None?
    ensures m.HandleKeyDown(key, ctrlKey, metaKey).save.None?
  {
    TrimEmptyIffAllSpace(m.comment);
  }
}
