/**
 * `getUsers` and `getUserVars` of the course service, over the rows of the
 * student-variables table once it has been read and parsed: each row maps
 * column headers to cell text.
 */
module StudentRows {
  import opened Wrappers

  type Row = map<string, string>

  /** The column holding a student's number. */
  const NumberKey := "Number"

  /** The row belongs to the student: it has a `Number` cell equal to the id. */
  predicate Matches(row: Row, studentId: string) {
    NumberKey in row && row[NumberKey] == studentId
  }

  /** The `Number` cell of a row, absent when the row has no such column. */
  function NumberOf(row: Row): (r: Option<string>)
    ensures r.Some? <==> NumberKey in row
    ensures r.Some? ==> Matches(row, r.value)
  {
    if NumberKey in row then Some(row[NumberKey]) else None
  }

  /** `getUsers`: the `Number` of every row, one entry per row, in row order. */
  function GetUsers(rows: seq<Row>): (r: seq<Option<string>>)
    ensures |r| == |rows|
    ensures forall i :: 0 <= i < |rows| ==> r[i] == NumberOf(rows[i])
  {
    if rows == [] then [] else [NumberOf(rows[0])] + GetUsers(rows[1..])
  }

  /** Position of the first row belonging to the student. */
  function FirstMatch(rows: seq<Row>, studentId: string): (r: Option<nat>)
    ensures r.Some? ==> r.value < |rows| && Matches(rows[r.value], studentId)
    ensures r.Some? ==> forall j :: 0 <= j < r.value ==> !Matches(rows[j], studentId)
    ensures r.None? ==> forall j :: 0 <= j < |rows| ==> !Matches(rows[j], studentId)
  {
    if rows == [] then None
    else if Matches(rows[0], studentId) then Some(0)
    else match FirstMatch(rows[1..], studentId)
      case Some(k) => Some(k + 1)
      case None => None
  }

  /** `getUserVars`: the first row whose `Number` is the student id, if any. */
  function GetUserVars(rows: seq<Row>, studentId: string): (r: Option<Row>)
    ensures r.None? <==> forall j :: 0 <= j < |rows| ==> !Matches(rows[j], studentId)
    ensures r.Some? ==> Matches(r.value, studentId) && r.value in rows
  {
    match FirstMatch(rows, studentId)
    case Some(k) => Some(rows[k])
    case None => None
  }

  /** The lookup agrees with the listing: a student has variables exactly when their number is listed. */
  lemma UserVarsAgreeWithUsers(rows: seq<Row>, studentId: string)
    ensures GetUserVars(rows, studentId).Some? <==> Some(studentId) in GetUsers(rows)
  {
    var users := GetUsers(rows);
    if Some(studentId) in users {
      var i :| 0 <= i < |users| && users[i] == Some(studentId);
      assert Matches(rows[i], studentId);
    }
    if GetUserVars(rows, studentId).Some? {
      var k := FirstMatch(rows, studentId).value;
      assert users[k] == Some(studentId);
    }
  }
}
