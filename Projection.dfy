/**
 * The read model that `updateUI` and `highlightButtons` compute from the
 * session state: the text shown for the item under the cursor, the
 * "position / total" counter, the number of labelled rows, and which label
 * button is highlighted.
 */
module Projection {
  import opened Rows

  /** Shown when the query cell is missing or empty. */
  const Placeholder: string := "—"

  /** The two canonical labels, bound to the first two label buttons and keys "1" and "2". */
  const Natural: string := "natürlich"
  const Conventional: string := "konventionell"

  /** 1 for a set label, 0 for the unset sentinel "". */
  function IsSet(value: string): nat
  {
    if value != "" then 1 else 0
  }

  /** `annotations.filter(a => a !== '').length`: how many slots hold a label. */
  function LabeledCount(annotations: seq<string>): (n: nat)
    ensures n <= |annotations|
  {
    if annotations == [] then 0 else IsSet(annotations[0]) + LabeledCount(annotations[1..])
  }

  /** Every slot is labelled exactly when the labelled count reaches the number of slots. */
  lemma {:induction false} LabeledCountFull(annotations: seq<string>)
    ensures LabeledCount(annotations) == |annotations| <==> forall i :: 0 <= i < |annotations| ==> annotations[i] != ""
  {
    if annotations != [] {
      LabeledCountFull(annotations[1..]);
      assert forall i :: 1 <= i < |annotations| ==> annotations[i] == annotations[1..][i - 1];
    }
  }

  /** No slot is labelled exactly when the labelled count is zero. */
  lemma {:induction false} LabeledCountZero(annotations: seq<string>)
    ensures LabeledCount(annotations) == 0 <==> forall i :: 0 <= i < |annotations| ==> annotations[i] == ""
  {
    if annotations != [] {
      LabeledCountZero(annotations[1..]);
      assert forall i :: 1 <= i < |annotations| ==> annotations[i] == annotations[1..][i - 1];
    }
  }

  /**
   * Writing one slot changes the count by what left the slot and what entered it:
   * labelling an unset row adds one, clearing a labelled row removes one.
   */
  lemma {:induction false} LabeledCountUpdate(annotations: seq<string>, i: nat, value: string)
    requires i < |annotations|
    ensures LabeledCount(annotations[i := value]) + IsSet(annotations[i]) == LabeledCount(annotations) + IsSet(value)
  {
    if i == 0 {
      assert annotations[i := value][1..] == annotations[1..];
    } else {
      LabeledCountUpdate(annotations[1..], i - 1, value);
      assert annotations[i := value][1..] == annotations[1..][i - 1 := value];
    }
  }

  /** `row[queryColumn] ?? '—'`, then `|| '—'`: the cell, or the placeholder when it is missing or empty. */
  function QueryText(row: Row, queryColumn: nat): (text: string)
    ensures text != ""
    ensures queryColumn < |row| && row[queryColumn] != "" ==> text == row[queryColumn]
    ensures queryColumn >= |row| || row[queryColumn] == "" ==> text == Placeholder
  {
    if queryColumn < |row| && row[queryColumn] != "" then row[queryColumn] else Placeholder
  }

  /** What one `updateUI` call displays. */
  datatype View = View(row: Row, query: string, position: nat, total: nat, labeled: nat)

  /**
   * `updateUI`: nothing is redrawn when there are no data rows; otherwise the row
   * under the cursor, its query text, the 1-based position, the total and the
   * labelled count.
   */
  function Project(raw: seq<Row>, hasHeader: bool, queryColumn: nat, cursor: nat, annotations: seq<string>): (v: Option<View>)
    ensures v.None? <==> DataRows(raw, hasHeader) == []
    ensures v.Some? ==>
              && v.value.total == |DataRows(raw, hasHeader)|
              && v.value.row == CurrentRow(raw, hasHeader, cursor)
              && v.value.query == QueryText(v.value.row, queryColumn)
              && v.value.position == cursor + 1
              && v.value.labeled == LabeledCount(annotations)
    ensures v.Some? && cursor < v.value.total ==>
              v.value.row == raw[cursor + HeaderOffset(hasHeader)] && 1 <= v.value.position <= v.value.total
    ensures v.Some? && |annotations| == v.value.total ==> v.value.labeled <= v.value.total
  {
    var rows := DataRows(raw, hasHeader);
    if rows == [] then None
    else
      var row := CurrentRow(raw, hasHeader, cursor);
      Some(View(row, QueryText(row, queryColumn), cursor + 1, |rows|, LabeledCount(annotations)))
  }

  /** The three label buttons. */
  datatype Button = NaturalButton | ConventionalButton | CustomButton

  /**
   * `highlightButtons`: the buttons marked active for the current label. A canonical
   * label lights its own button, any other non-empty label the custom button, and an
   * unset slot none; so at most one button is ever lit.
   */
  function ActiveButtons(value: string): (lit: set<Button>)
    ensures |lit| <= 1
    ensures lit == {} <==> value == ""
    ensures NaturalButton in lit <==> value == Natural
    ensures ConventionalButton in lit <==> value == Conventional
    ensures CustomButton in lit <==> value != "" && value != Natural && value != Conventional
  {
    (if value == Natural then {NaturalButton} else {})
    + (if value == Conventional then {ConventionalButton} else {})
    + (if value != "" && value != Natural && value != Conventional then {CustomButton} else {})
  }

  /** The buttons lit for the slot under the cursor (`annotations[currentIndex] || ''`). */
  function HighlightedButtons(annotations: seq<string>, cursor: nat): (lit: set<Button>)
    ensures |lit| <= 1
    ensures lit == {} <==> cursor >= |annotations| || annotations[cursor] == ""
  {
    ActiveButtons(LabelAt(annotations, cursor))
  }
}
