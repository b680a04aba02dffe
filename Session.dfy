/**
 * The annotation session: the single mutable `STATE` record of the page and
 * the event handlers that update it in place. Every handler keeps the session
 * invariant Valid(): one label slot per data row, the cursor on a slot
 * whenever there is one, and the query column one of the header row's
 * column indices (or 0).
 */
module Session {
  import opened Rows
  import opened Projection
  import opened Keyboard

  /** What the tabular decoder delivers for a chosen file: its rows, or a read error. */
  datatype Decoded = Decoded(rows: seq<Row>) | DecodeError

  /** Every slot holds the unset sentinel (`new Array(n).fill('')`). */
  ghost predicate AllUnset(annotations: seq<string>)
  {
    forall i :: 0 <= i < |annotations| ==> annotations[i] == ""
  }

  function Min(a: int, b: int): int { if a <= b then a else b }

  function Max(a: int, b: int): int { if a <= b then b else a }

  /**
   * `annotations.findIndex((item, idx) => item === '' && idx >= from)`, with |a|
   * standing for "not found".
   */
  function FirstUnset(a: seq<string>, from: nat): (k: nat)
    ensures k <= |a|
    decreases |a| - from
  {
    if from >= |a| then |a|
    else if a[from] == "" then from
    else FirstUnset(a, from + 1)
  }

  /** FirstUnset finds the least unset slot at or after `from`, and |a| only when there is none. */
  lemma {:induction false} FirstUnsetLeast(a: seq<string>, from: nat)
    ensures var k := FirstUnset(a, from);
              && (k < |a| ==> from <= k && a[k] == "")
              && (forall j :: from <= j < k ==> a[j] != "")
    decreases |a| - from
  {
    if from < |a| && a[from] != "" {
      FirstUnsetLeast(a, from + 1);
    }
  }

  /**
   * Where `jumpToNextUnlabeled` puts the cursor: the first unset slot after the
   * cursor; failing that, the first unset slot from the start; failing that
   * (every slot labelled), the cursor stays.
   */
  function JumpTarget(a: seq<string>, cursor: nat): (k: nat)
    ensures k < |a| || k == cursor
  {
    var next := FirstUnset(a, cursor + 1);
    if next < |a| then next
    else
      var first := FirstUnset(a, 0);
      if first < |a| then first else cursor
  }

  /**
   * The jump search order: forward from the cursor to the first unset slot; with
   * none ahead, the first unset slot from the start (at or before the cursor); with
   * every slot labelled, nowhere. A cursor on a slot always stays on a slot.
   */
  lemma JumpTargetSearch(a: seq<string>, cursor: nat)
    ensures var k := JumpTarget(a, cursor);
              && ((exists j :: cursor < j < |a| && a[j] == "") ==>
                    cursor < k < |a| && a[k] == "" && forall j :: cursor < j < k ==> a[j] != "")
              && ((forall j :: cursor < j < |a| ==> a[j] != "") && (exists j :: 0 <= j < |a| && a[j] == "") ==>
                    k <= cursor && k < |a| && a[k] == "" && forall j :: 0 <= j < k ==> a[j] != "")
              && ((forall j :: 0 <= j < |a| ==> a[j] != "") ==> k == cursor)
              && (cursor < |a| ==> k < |a|)
  {
    FirstUnsetLeast(a, cursor + 1);
    FirstUnsetLeast(a, 0);
  }

  /** The session state (`STATE`), updated in place by the page's handlers. */
  class State {
    var rawRows: seq<Row>
    var annotations: seq<string>
    var queryColumn: nat
    var currentIndex: nat
    var hasHeader: bool

    ghost predicate Valid()
      reads this
    {
      && |annotations| == |DataRows(rawRows, hasHeader)|
      && (annotations == [] ==> currentIndex == 0)
      && (annotations != [] ==> currentIndex < |annotations|)
      && (queryColumn == 0 || (rawRows != [] && queryColumn < |rawRows[0]|))
    }

    /** The page's initial state: the `STATE` literal, then `resetState()` at start-up. */
    constructor ()
      ensures Valid()
      ensures rawRows == [] && annotations == [] && queryColumn == 0 && currentIndex == 0 && hasHeader
    {
      rawRows, annotations, queryColumn, currentIndex, hasHeader := [], [], 0, 0, true;
    }

    /** `resetState`: forget the table, the labels, the column and the cursor; the header flag stays. */
    method ResetState()
      modifies this
      ensures Valid()
      ensures rawRows == [] && annotations == [] && queryColumn == 0 && currentIndex == 0
      ensures hasHeader == old(hasHeader)
    {
      rawRows := [];
      annotations := [];
      queryColumn := 0;
      currentIndex := 0;
    }

    /**
     * `parseFile` with the decoder's outcome: the session is reset first; a read
     * error or a file without rows leaves it empty; otherwise the rows are taken,
     * the header flag is read from the checkbox and every data row gets an unset slot.
     */
    method ParseFile(decoded: Decoded, headerChecked: bool)
      modifies this
      ensures Valid()
      ensures queryColumn == 0 && currentIndex == 0
      ensures decoded.DecodeError? || decoded.rows == [] ==>
                rawRows == [] && annotations == [] && hasHeader == old(hasHeader)
      ensures decoded.Decoded? && decoded.rows != [] ==>
                && rawRows == decoded.rows
                && hasHeader == headerChecked
                && |annotations| == |decoded.rows| - HeaderOffset(headerChecked)
                && AllUnset(annotations)
    {
      ResetState();
      if decoded.Decoded? && decoded.rows != [] {
        rawRows := decoded.rows;
        hasHeader := headerChecked;
        annotations := seq(|rawRows| - HeaderOffset(hasHeader), _ => "");
      }
    }

    /**
     * The header checkbox handler: the flag follows the checkbox; with a table
     * loaded, every label is discarded (one unset slot per new data row) and the
     * cursor returns to 0. The table and the query column are untouched.
     */
    method ToggleHeader(checked: bool)
      requires Valid()
      modifies this
      ensures Valid()
      ensures hasHeader == checked && rawRows == old(rawRows) && queryColumn == old(queryColumn)
      ensures old(rawRows) != [] ==>
                |annotations| == |rawRows| - HeaderOffset(checked) && AllUnset(annotations) && currentIndex == 0
      ensures old(rawRows) == [] ==> annotations == old(annotations) && currentIndex == old(currentIndex)
    {
      hasHeader := checked;
      if |rawRows| > 0 {
        annotations := seq(|rawRows| - HeaderOffset(hasHeader), _ => "");
        currentIndex := 0;
      }
    }

    /** The column select handler: only the query column changes, to one of the header row's indices. */
    method SelectColumn(column: nat)
      requires Valid()
      requires rawRows != [] && column < |rawRows[0]|
      modifies this
      ensures Valid()
      ensures queryColumn == column
      ensures rawRows == old(rawRows) && annotations == old(annotations)
      ensures currentIndex == old(currentIndex) && hasHeader == old(hasHeader)
    {
      queryColumn := column;
    }

    /** `moveToNext`: one step forward, stopping at the last slot (no wrap-around). */
    method MoveToNext()
      requires Valid()
      modifies this`currentIndex
      ensures Valid()
      ensures annotations == [] ==> currentIndex == old(currentIndex)
      ensures annotations != [] ==> currentIndex == Min(old(currentIndex) + 1, |annotations| - 1)
    {
      if currentIndex < |annotations| - 1 {
        currentIndex := currentIndex + 1;
      }
    }

    /** `moveToPrev`: one step back, stopping at slot 0 (no wrap-around). */
    method MoveToPrev()
      requires Valid()
      modifies this`currentIndex
      ensures Valid()
      ensures currentIndex == Max(old(currentIndex) - 1, 0)
    {
      if currentIndex > 0 {
        currentIndex := currentIndex - 1;
      }
    }

    /**
     * `setAnnotation`: with no slots nothing happens; otherwise only the slot under
     * the cursor is written, and the cursor then advances by at most one.
     */
    method SetAnnotation(value: string)
      requires Valid()
      modifies this`annotations, this`currentIndex
      ensures Valid()
      ensures old(annotations) == [] ==> annotations == [] && currentIndex == old(currentIndex)
      ensures old(annotations) != [] ==>
                && annotations == old(annotations)[old(currentIndex) := value]
                && currentIndex == Min(old(currentIndex) + 1, |annotations| - 1)
    {
      if |annotations| == 0 {
        return;
      }
      annotations := annotations[currentIndex := value];
      MoveToNext();
    }

    /**
     * `clearAnnotation`: unsets the slot under the cursor without moving it; a
     * no-op with no slots or when the slot is already unset, so clearing twice
     * is clearing once.
     */
    method ClearAnnotation()
      requires Valid()
      modifies this`annotations
      ensures Valid()
      ensures old(annotations) != [] ==> annotations == old(annotations)[currentIndex := ""]
      ensures old(annotations) == [] || old(annotations)[currentIndex] == "" ==> annotations == old(annotations)
      ensures annotations != [] ==> annotations[currentIndex] == ""
    {
      if |annotations| == 0 {
        return;
      }
      annotations := annotations[currentIndex := ""];
    }

    /** `jumpToNextUnlabeled`: the cursor moves to JumpTarget; no label changes. */
    method JumpToNextUnlabeled()
      requires Valid()
      modifies this`currentIndex
      ensures Valid()
      ensures currentIndex == JumpTarget(annotations, old(currentIndex))
    {
      var nextIndex := FirstUnset(annotations, currentIndex + 1);
      if nextIndex < |annotations| {
        currentIndex := nextIndex;
      } else {
        var first := FirstUnset(annotations, 0);
        if first < |annotations| {
          currentIndex := first;
        }
      }
    }

    /**
     * `handleKeyboard`: runs the command KeyCommand picks for the key. Only the
     * labels and the cursor can change, and only as the chosen handler changes them.
     */
    method HandleKeyboard(key: string, focus: Focus, customValue: string)
      requires Valid()
      modifies this`annotations, this`currentIndex
      ensures Valid()
      ensures |annotations| == |old(annotations)|
      ensures match KeyCommand(key, focus, old(annotations) != [], customValue)
              case Annotate(v) =>
                annotations == old(annotations)[old(currentIndex) := v]
                && currentIndex == Min(old(currentIndex) + 1, |annotations| - 1)
              case Clear =>
                annotations == old(annotations)[old(currentIndex) := ""] && currentIndex == old(currentIndex)
              case Next =>
                annotations == old(annotations) && currentIndex == Min(old(currentIndex) + 1, |annotations| - 1)
              case Prev =>
                annotations == old(annotations) && currentIndex == Max(old(currentIndex) - 1, 0)
              case Ignore =>
                annotations == old(annotations) && currentIndex == old(currentIndex)
    {
      match KeyCommand(key, focus, |annotations| > 0, customValue)
      case Annotate(v) => SetAnnotation(v);
      case Clear => ClearAnnotation();
      case Next => MoveToNext();
      case Prev => MoveToPrev();
      case Ignore =>
    }

    /**
     * The three label buttons' click handlers: the canonical buttons apply their
     * label; the custom button applies the trimmed free text, unless it is blank.
     */
    method ClickLabelButton(button: Button, customValue: string)
      requires Valid()
      modifies this`annotations, this`currentIndex
      ensures Valid()
      ensures var v := match button
                       case NaturalButton => Natural
                       case ConventionalButton => Conventional
                       case CustomButton => Trim(customValue);
              if v == "" || old(annotations) == [] then
                annotations == old(annotations) && currentIndex == old(currentIndex)
              else
                annotations == old(annotations)[old(currentIndex) := v]
                && currentIndex == Min(old(currentIndex) + 1, |annotations| - 1)
    {
      match button
      case NaturalButton => SetAnnotation(Natural);
      case ConventionalButton => SetAnnotation(Conventional);
      case CustomButton =>
        var value := Trim(customValue);
        if value != "" {
          SetAnnotation(value);
        }
    }

    /**
     * `buildAnnotatedCsv` up to the encoder: copies the rows, splices the column
     * title into the header row and each data row's label into the data rows.
     * With the header flag on and no rows, the header row is missing and the
     * source's `splice` on it fails: that is None here.
     */
    method BuildAnnotatedCsv() returns (out: Option<seq<Row>>)
      ensures hasHeader && rawRows == [] ==> out == None
      ensures !(hasHeader && rawRows == []) ==> out == Some(AnnotatedRows(rawRows, hasHeader, queryColumn, annotations))
    {
      var cloned := rawRows;
      var offset := HeaderOffset(hasHeader);
      if hasHeader {
        if |cloned| == 0 {
          return None;
        }
        cloned := cloned[0 := Insert(cloned[0], queryColumn + 1, AnnotationTitle)];
        assert cloned[0] == ExportRow(rawRows[0], hasHeader, queryColumn, annotations, 0);
      }
      var i := offset;
      while i < |cloned|
        invariant offset <= i <= |cloned| == |rawRows|
        invariant forall j :: 0 <= j < i ==> cloned[j] == ExportRow(rawRows[j], hasHeader, queryColumn, annotations, j)
        invariant forall j :: i <= j < |cloned| ==> cloned[j] == rawRows[j]
      {
        var annotation := LabelAt(annotations, i - offset);
        cloned := cloned[i := Insert(cloned[i], queryColumn + 1, annotation)];
        i := i + 1;
      }
      var expected := AnnotatedRows(rawRows, hasHeader, queryColumn, annotations);
      assert |cloned| == |expected|;
      assert forall j :: 0 <= j < |cloned| ==> cloned[j] == expected[j];
      assert cloned == expected;
      out := Some(cloned);
    }
  }

  /** Splicing into a two-field row after its first field. */
  lemma InsertAfterFirst(first: string, second: string, x: string)
    ensures Insert([first, second], 1, x) == [first, x, second]
  {
    var r := Insert([first, second], 1, x);
    assert r[..1] == [first] && r[2..] == [second];
  }

  /** The export of the example table below, labelled natural on its first row only. */
  lemma ExampleExport()
    ensures AnnotatedRows([["a", "1"], ["b", "2"], ["c", "3"]], false, 0, [Natural, "", ""])
            == [["a", Natural, "1"], ["b", "", "2"], ["c", "", "3"]]
  {
    var labels := [Natural, "", ""];
    var got := AnnotatedRows([["a", "1"], ["b", "2"], ["c", "3"]], false, 0, labels);
    assert got[0] == Insert(["a", "1"], 1, Natural) by { assert ExportedField(false, labels, 0) == Natural; }
    assert got[1] == Insert(["b", "2"], 1, "") by { assert ExportedField(false, labels, 1) == ""; }
    assert got[2] == Insert(["c", "3"], 1, "") by { assert ExportedField(false, labels, 2) == ""; }
    InsertAfterFirst("a", "1", Natural);
    InsertAfterFirst("b", "2", "");
    InsertAfterFirst("c", "3", "");
  }

  /** A header-less three-row table loaded, with query column 0 chosen. */
  method ExampleLoad() returns (s: State)
    ensures fresh(s) && s.Valid()
    ensures s.rawRows == [["a", "1"], ["b", "2"], ["c", "3"]] && !s.hasHeader && s.queryColumn == 0
    ensures s.annotations == ["", "", ""] && s.currentIndex == 0
  {
    s := new State();
    s.ParseFile(Decoded([["a", "1"], ["b", "2"], ["c", "3"]]), false);
    assert |s.annotations| == 3 && AllUnset(s.annotations);
    assert s.annotations == ["", "", ""];
    s.SelectColumn(0);
  }

  /** Key "1" on the page labels the first row natural and steps to the second. */
  method ExampleKeyPress() returns (s: State)
    ensures fresh(s) && s.Valid()
    ensures s.rawRows == [["a", "1"], ["b", "2"], ["c", "3"]] && !s.hasHeader && s.queryColumn == 0
    ensures s.annotations == [Natural, "", ""] && s.currentIndex == 1
  {
    s := ExampleLoad();
    assert KeyCommand("1", Page, true, "") == Annotate(Natural);
    s.HandleKeyboard("1", Page, "");
  }

  /** Then a jump to the next unlabelled row lands on the third row. */
  method ExampleLabelling() returns (s: State)
    ensures fresh(s) && s.Valid()
    ensures s.rawRows == [["a", "1"], ["b", "2"], ["c", "3"]] && !s.hasHeader && s.queryColumn == 0
    ensures s.annotations == [Natural, "", ""] && s.currentIndex == 2
  {
    s := ExampleKeyPress();
    s.JumpToNextUnlabeled();
  }

  /** The session above exported: the label column sits right after the query column. */
  method ExampleSession() returns (out: Option<seq<Row>>)
    ensures out == Some([["a", Natural, "1"], ["b", "", "2"], ["c", "", "3"]])
  {
    var s := ExampleLabelling();
    out := s.BuildAnnotatedCsv();
    ExampleExport();
  }
}
