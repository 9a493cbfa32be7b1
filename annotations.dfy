/** Cell explanations ("comments") and the per-row index in which the
    dashboards keep them: row id -> the row's explanations in server
    order, queried by first match on the field name. */
module Annotations {
  import opened Wrappers
  import opened Fields
  import Initials

  /** One explanation attached to one cell of one snapshot row. */
  datatype Explanation = Explanation(
    id: int,
    wipSnapshotId: int,
    fieldName: string,
    text: string,
    createdBy: int,
    createdByName: string,
    createdByFirstName: Option<string>,
    createdByLastName: Option<string>,
    createdAt: string,
    updatedAt: string)

  /** The dashboards' index, keyed by row id. The source keys it by the id's
      decimal text, which is one-to-one on integer ids. */
  type Index = map<int, seq<Explanation>>

  /** `explanations[id] || []`: the row's list, or the empty list when the
      row has no entry. */
  function RowExplanations(index: Index, rowId: int): (list: seq<Explanation>)
    ensures rowId in index ==> list == index[rowId]
    ensures rowId !in index ==> list == []
  {
    if rowId in index then index[rowId] else []
  }

  /** The position of the first explanation for `fieldName`, as `find` scans. */
  function FirstIndexOf(list: seq<Explanation>, fieldName: string): (p: Option<nat>)
    ensures p.Some? ==> p.value < |list| && list[p.value].fieldName == fieldName
    ensures p.Some? ==> forall j :: 0 <= j < p.value ==> list[j].fieldName != fieldName
    ensures p.None? ==> forall j :: 0 <= j < |list| ==> list[j].fieldName != fieldName
  {
    if list == [] then None
    else if list[0].fieldName == fieldName then Some(0)
    else
      match FirstIndexOf(list[1..], fieldName)
      case None => None
      case Some(k) => Some(k + 1)
  }

  /** `list.find(exp => exp.field_name === fieldName)`. */
  function Find(list: seq<Explanation>, fieldName: string): (e: Option<Explanation>)
    ensures e.Some? <==> exists j :: 0 <= j < |list| && list[j].fieldName == fieldName
    ensures e.Some? ==> e.value.fieldName == fieldName && e.value in list
    ensures e.None? <==> forall x :: x in list ==> x.fieldName != fieldName
    ensures e.Some? ==> exists k :: 0 <= k < |list| && e.value == list[k]
                                   && forall j :: 0 <= j < k ==> list[j].fieldName != fieldName
  {
    match FirstIndexOf(list, fieldName)
    case None => None
    case Some(k) => Some(list[k])
  }

  /** The explanations of a list that belong to `fieldName`, in order: an
      independent description of what `find` picks from. */
  function ForField(list: seq<Explanation>, fieldName: string): (r: seq<Explanation>)
    ensures forall e :: e in r ==> e in list && e.fieldName == fieldName
    ensures |r| <= |list|
  {
    if list == [] then []
    else if list[0].fieldName == fieldName then [list[0]] + ForField(list[1..], fieldName)
    else ForField(list[1..], fieldName)
  }

  /** `find` returns the head of the filtered list, or nothing when that
      list is empty. */
  lemma {:induction false} FindIsHeadOfForField(list: seq<Explanation>, fieldName: string)
    ensures var r := ForField(list, fieldName);
            Find(list, fieldName) == if r == [] then None else Some(r[0])
  {
    if list != [] && list[0].fieldName != fieldName {
      FindIsHeadOfForField(list[1..], fieldName);
      var tail := FirstIndexOf(list[1..], fieldName);
      if tail.Some? {
        assert list[tail.value + 1] == list[1..][tail.value];
      }
    }
  }

  /** Explanations for other fields placed in front of a list do not change
      what is found; the first one for the field shadows all later ones. */
  lemma {:induction false} FindSkipsOtherFields(front: seq<Explanation>, back: seq<Explanation>,
                                                fieldName: string)
    requires forall e :: e in front ==> e.fieldName != fieldName
    ensures Find(front + back, fieldName) == Find(back, fieldName)
  {
    FindIsHeadOfForField(front + back, fieldName);
    FindIsHeadOfForField(back, fieldName);
    ForFieldSkips(front, back, fieldName);
  }

  lemma {:induction false} ForFieldSkips(front: seq<Explanation>, back: seq<Explanation>,
                                         fieldName: string)
    requires forall e :: e in front ==> e.fieldName != fieldName
    ensures ForField(front + back, fieldName) == ForField(back, fieldName)
    decreases |front|
  {
    if front != [] {
      assert front[0] in front;
      assert (front + back)[1..] == front[1..] + back;
      assert forall e :: e in front[1..] ==> e in front;
      ForFieldSkips(front[1..], back, fieldName);
    } else {
      assert front + back == back;
    }
  }

  /** `getCommentExplanation(wipId, field)`. */
  function CommentExplanation(index: Index, rowId: int, field: Field): (e: Option<Explanation>)
    ensures e.Some? ==> rowId in index && e.value in index[rowId] && e.value.fieldName == Key(field)
    ensures rowId !in index ==> e.None?
    ensures e.None? <==> forall x :: x in RowExplanations(index, rowId) ==> x.fieldName != Key(field)
    ensures var list := RowExplanations(index, rowId);
            e.Some? ==> exists k :: 0 <= k < |list| && e.value == list[k]
                                   && forall j :: 0 <= j < k ==> list[j].fieldName != Key(field)
  {
    Find(RowExplanations(index, rowId), Key(field))
  }

  /** `getComment(wipId, field)`: the text of that explanation. */
  function Comment(index: Index, rowId: int, field: Field): (c: Option<string>)
    ensures c.Some? <==> CommentExplanation(index, rowId, field).Some?
    ensures c.Some? ==> c.value == CommentExplanation(index, rowId, field).value.text
  {
    match CommentExplanation(index, rowId, field)
    case None => None
    case Some(e) => Some(e.text)
  }

  /** The name shown for an explanation's author: first and last name when
      both are non-empty, else the account name. */
  function AuthorName(e: Explanation): (name: string)
    ensures Initials.Present(e.createdByFirstName) && Initials.Present(e.createdByLastName) ==>
              name == e.createdByFirstName.value + " " + e.createdByLastName.value
    ensures !(Initials.Present(e.createdByFirstName) && Initials.Present(e.createdByLastName)) ==>
              name == e.createdByName
  {
    if Initials.Present(e.createdByFirstName) && Initials.Present(e.createdByLastName) then
      e.createdByFirstName.value + " " + e.createdByLastName.value
    else
      e.createdByName
  }

  /** The author avatar of an explanation. */
  function AuthorInitials(e: Explanation): (r: string)
    ensures |r| <= 2 && Initials.Upper(r) == r
    ensures Initials.Present(e.createdByFirstName) && Initials.Present(e.createdByLastName) ==>
              r == [Initials.UpperChar(e.createdByFirstName.value[0]),
                    Initials.UpperChar(e.createdByLastName.value[0])]
    ensures Initials.Present(e.createdByFirstName) && !Initials.Present(e.createdByLastName) ==>
              r == [Initials.UpperChar(e.createdByFirstName.value[0])]
    ensures !Initials.Present(e.createdByFirstName) && e.createdByName != "" ==>
              r == Initials.Upper(Initials.Take(Initials.BeforeAt(e.createdByName), 2))
    ensures !Initials.Present(e.createdByFirstName) && e.createdByName == "" ==> r == "UN"
  {
    Initials.InitialsAreUpperCase(e.createdByFirstName, e.createdByLastName, Some(e.createdByName));
    Initials.UserInitials(e.createdByFirstName, e.createdByLastName, Some(e.createdByName))
  }

  /** What a data cell shows about its explanation: the author badge, the
      hover preview, and the comment button's title. `hasComment` is the
      explanation's text, so an explanation with empty text marks nothing. */
  datatype Marks = Marks(badge: Option<string>, preview: Option<string>, buttonTitle: string)

  function CellMarks(e: Option<Explanation>): (m: Marks)
    ensures m.badge.Some? <==> e.Some? && e.value.text != ""
    ensures m.preview.Some? <==> e.Some? && e.value.text != ""
    ensures m.badge.Some? ==> m.badge.value == AuthorInitials(e.value)
    ensures m.preview.Some? ==> m.preview.value == e.value.text
    ensures m.buttonTitle == (if m.preview.Some? then "View/Edit Comment" else "Add Comment")
  {
    if e.Some? && e.value.text != "" then
      Marks(Some(AuthorInitials(e.value)), Some(e.value.text), "View/Edit Comment")
    else
      Marks(None, None, "Add Comment")
  }
}
