/**
 * The decoded table and the two pure views of it that the annotator uses:
 * the rows that can be labelled (everything but the header row when the
 * header flag is on) and the exported table, which is the original table
 * with one extra field per row inserted right after the query column.
 */
module Rows {

  datatype Option<+T> = None | Some(value: T)

  /** One decoded record: its fields, in order. */
  type Row = seq<string>

  /** The label column's title in the exported header row. */
  const AnnotationTitle: string := "Annotation"

  /** How many leading rows are not data: the header row, when there is one. */
  function HeaderOffset(hasHeader: bool): nat
  {
    if hasHeader then 1 else 0
  }

  /** `getDataRows`: the table without its header row (`slice(1)` of an empty table is empty). */
  function DataRows(raw: seq<Row>, hasHeader: bool): (d: seq<Row>)
    ensures |d| == if raw == [] then 0 else |raw| - HeaderOffset(hasHeader)
    ensures forall i :: 0 <= i < |d| ==> i + HeaderOffset(hasHeader) < |raw| && d[i] == raw[i + HeaderOffset(hasHeader)]
  {
    if hasHeader then (if raw == [] then [] else raw[1..]) else raw
  }

  /** `getCurrentRow`: the data row under the cursor, or the empty row when there is none. */
  function CurrentRow(raw: seq<Row>, hasHeader: bool, cursor: nat): (row: Row)
    ensures cursor < |DataRows(raw, hasHeader)| ==>
              cursor + HeaderOffset(hasHeader) < |raw| && row == raw[cursor + HeaderOffset(hasHeader)]
    ensures cursor >= |DataRows(raw, hasHeader)| ==> row == []
  {
    var d := DataRows(raw, hasHeader);
    if cursor < |d| then d[cursor] else []
  }

  /** `annotations[j] || ''`: the label of data row j, empty when the slot is missing. */
  function LabelAt(annotations: seq<string>, j: int): string
  {
    if 0 <= j < |annotations| then annotations[j] else ""
  }

  /**
   * Where `row.splice(start, 0, x)` puts x in a row of length `len`: a start past
   * the end of the row appends.
   */
  function SplicePos(start: nat, len: nat): nat
  {
    if start <= len then start else len
  }

  /** r is row with x inserted at position p, every other field kept in order. */
  ghost predicate InsertedAt(row: Row, p: nat, x: string, r: Row)
  {
    && p <= |row|
    && |r| == |row| + 1
    && r[p] == x
    && r[..p] == row[..p]
    && r[p + 1..] == row[p..]
  }

  /** `row.splice(start, 0, x)` on a copy of the row: one field longer, x at the splice position. */
  function Insert(row: Row, start: nat, x: string): (r: Row)
    ensures |r| == |row| + 1
    ensures r[SplicePos(start, |row|)] == x
  {
    var p := SplicePos(start, |row|);
    row[..p] + [x] + row[p..]
  }

  /** Insert puts x at the splice position and keeps every other field, in order, around it. */
  lemma InsertShape(row: Row, start: nat, x: string)
    ensures InsertedAt(row, SplicePos(start, |row|), x, Insert(row, start, x))
  {
    var p := SplicePos(start, |row|);
    assert (row[..p] + [x] + row[p..])[p + 1..] == row[p..];
  }

  /** Drops the field at position p: the inverse of an insertion there. */
  function RemoveAt(row: Row, p: nat): (r: Row)
    requires p < |row|
    ensures |r| == |row| - 1
    ensures forall k :: 0 <= k < |r| ==> r[k] == if k < p then row[k] else row[k + 1]
  {
    row[..p] + row[p + 1..]
  }

  /** Removing the inserted field gives the original row back. */
  lemma InsertedAtRemove(row: Row, p: nat, x: string, r: Row)
    requires InsertedAt(row, p, x, r)
    ensures RemoveAt(r, p) == row
  {
    var s := RemoveAt(r, p);
    forall k | 0 <= k < |row| ensures s[k] == row[k] {
      if k < p {
        assert r[..p][k] == row[..p][k];
      } else {
        assert r[p + 1..][k - p] == row[p..][k - p];
      }
    }
  }

  /** The field the export inserts into row i: the column title for the header row, the row's label otherwise. */
  function ExportedField(hasHeader: bool, annotations: seq<string>, i: nat): string
  {
    if hasHeader && i == 0 then AnnotationTitle else LabelAt(annotations, i - HeaderOffset(hasHeader))
  }

  /** Where the label field lands in a row of length len: after the query column, or at the end of a short row. */
  function LabelPos(queryColumn: nat, len: nat): nat
  {
    SplicePos(queryColumn + 1, len)
  }

  /** Row i of the export: the original row with its exported field spliced in after the query column. */
  function ExportRow(row: Row, hasHeader: bool, queryColumn: nat, annotations: seq<string>, i: nat): Row
  {
    Insert(row, queryColumn + 1, ExportedField(hasHeader, annotations, i))
  }

  /**
   * The table `buildAnnotatedCsv` hands to the encoder: as many rows as the original,
   * each exactly one field longer, with the column title (header row) or the row's
   * label (data row) at the label position.
   */
  function AnnotatedRows(raw: seq<Row>, hasHeader: bool, queryColumn: nat, annotations: seq<string>): (out: seq<Row>)
    ensures |out| == |raw|
    ensures forall i :: 0 <= i < |raw| ==>
              |out[i]| == |raw[i]| + 1 && out[i][LabelPos(queryColumn, |raw[i]|)] == ExportedField(hasHeader, annotations, i)
  {
    seq(|raw|, i requires 0 <= i < |raw| => ExportRow(raw[i], hasHeader, queryColumn, annotations, i))
  }

  /**
   * When every row reaches past the query column, the inserted field sits at the
   * same index, one after the query column, in every row: the label column lines
   * up. A shorter row gets the field appended at its end instead.
   */
  lemma ExportColumnAligned(raw: seq<Row>, hasHeader: bool, queryColumn: nat, annotations: seq<string>)
    requires forall i :: 0 <= i < |raw| ==> queryColumn < |raw[i]|
    ensures var out := AnnotatedRows(raw, hasHeader, queryColumn, annotations);
              forall i :: 0 <= i < |raw| ==>
                queryColumn + 1 < |out[i]| && out[i][queryColumn + 1] == ExportedField(hasHeader, annotations, i)
  {
  }

  /**
   * The structural law of the export for row i: the original row with exactly one
   * field inserted at the label position, every other field in its old order.
   */
  lemma ExportShape(raw: seq<Row>, hasHeader: bool, queryColumn: nat, annotations: seq<string>, i: nat)
    requires i < |raw|
    ensures |AnnotatedRows(raw, hasHeader, queryColumn, annotations)| == |raw|
    ensures InsertedAt(raw[i], LabelPos(queryColumn, |raw[i]|), ExportedField(hasHeader, annotations, i),
                       AnnotatedRows(raw, hasHeader, queryColumn, annotations)[i])
  {
    InsertShape(raw[i], queryColumn + 1, ExportedField(hasHeader, annotations, i));
  }

  /** The field at the label position of an exported row ("" for an empty row). */
  function LabelField(r: Row, queryColumn: nat): string
  {
    if r == [] then "" else r[LabelPos(queryColumn, |r| - 1)]
  }

  /** Removes the label column from an exported table: each row loses the field at the label position. */
  function StripLabelColumn(rows: seq<Row>, queryColumn: nat): (out: seq<Row>)
    ensures |out| == |rows|
  {
    seq(|rows|, i requires 0 <= i < |rows| =>
      if rows[i] == [] then [] else RemoveAt(rows[i], LabelPos(queryColumn, |rows[i]| - 1)))
  }

  /** Reads the label column back out of an exported table, one entry per data row. */
  function LabelColumn(rows: seq<Row>, hasHeader: bool, queryColumn: nat): (labels: seq<string>)
    ensures |labels| == |DataRows(rows, hasHeader)|
  {
    var k := HeaderOffset(hasHeader);
    seq(if rows == [] then 0 else |rows| - k, j requires 0 <= j < |rows| - k => LabelField(rows[j + k], queryColumn))
  }

  /** Stripping the label column from an export gives back exactly the table it was built from. */
  lemma ExportRoundTrip(raw: seq<Row>, hasHeader: bool, queryColumn: nat, annotations: seq<string>)
    ensures StripLabelColumn(AnnotatedRows(raw, hasHeader, queryColumn, annotations), queryColumn) == raw
  {
    var out := AnnotatedRows(raw, hasHeader, queryColumn, annotations);
    var back := StripLabelColumn(out, queryColumn);
    forall i | 0 <= i < |raw| ensures back[i] == raw[i] {
      ExportShape(raw, hasHeader, queryColumn, annotations, i);
      InsertedAtRemove(raw[i], LabelPos(queryColumn, |raw[i]|), ExportedField(hasHeader, annotations, i), out[i]);
    }
  }

  /** A table whose data rows carry the fields `labels` at their label positions has exactly that label column. */
  lemma LabelColumnOf(rows: seq<Row>, hasHeader: bool, queryColumn: nat, labels: seq<string>)
    requires |labels| == |DataRows(rows, hasHeader)|
    requires forall i :: HeaderOffset(hasHeader) <= i < |rows| ==>
               LabelField(rows[i], queryColumn) == LabelAt(labels, i - HeaderOffset(hasHeader))
    ensures LabelColumn(rows, hasHeader, queryColumn) == labels
  {
    var k := HeaderOffset(hasHeader);
    var col := LabelColumn(rows, hasHeader, queryColumn);
    assert |col| == |labels|;
    forall j | 0 <= j < |labels| ensures col[j] == labels[j] {
      var i := j + k;
      assert col[j] == LabelField(rows[i], queryColumn);
      assert LabelField(rows[i], queryColumn) == LabelAt(labels, i - k);
    }
  }

  /**
   * When there is one label per data row, the exported label column holds exactly
   * those labels, in row order: no label is lost, shifted or duplicated by the export.
   */
  lemma ExportKeepsLabels(raw: seq<Row>, hasHeader: bool, queryColumn: nat, annotations: seq<string>)
    requires |annotations| == |DataRows(raw, hasHeader)|
    ensures LabelColumn(AnnotatedRows(raw, hasHeader, queryColumn, annotations), hasHeader, queryColumn) == annotations
  {
    var out := AnnotatedRows(raw, hasHeader, queryColumn, annotations);
    forall i | HeaderOffset(hasHeader) <= i < |out|
      ensures LabelField(out[i], queryColumn) == LabelAt(annotations, i - HeaderOffset(hasHeader))
    {
      assert |out[i]| == |raw[i]| + 1;
    }
    LabelColumnOf(out, hasHeader, queryColumn, annotations);
  }
}
