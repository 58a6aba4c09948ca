/**
 * Lookup by primary key in a table held as a sequence of rows: the query
 * `FirstOrDefault(row => row.Id == id)` returns the first row, in table
 * order, whose key equals the id, or null when there is none. Both the
 * event table and the ticket-type table are searched this way.
 */
module Tables {
  import opened Wrappers

  /** The position of the first row whose key is `id`; |rows| when there is none. */
  function FirstIndex<T>(rows: seq<T>, key: T -> int, id: int): (k: nat)
    ensures k <= |rows|
    ensures forall j :: 0 <= j < k ==> key(rows[j]) != id
    ensures k < |rows| ==> key(rows[k]) == id
  {
    if rows == [] || key(rows[0]) == id then 0 else 1 + FirstIndex(rows[1..], key, id)
  }

  /** The first row whose key is `id`, or None. */
  function FindFirst<T>(rows: seq<T>, key: T -> int, id: int): (r: Option<T>)
    ensures r.None? <==> forall k :: 0 <= k < |rows| ==> key(rows[k]) != id
    ensures r.Some? ==> key(r.value) == id
    ensures forall k :: 0 <= k < |rows| && key(rows[k]) == id && (forall j :: 0 <= j < k ==> key(rows[j]) != id)
              ==> r == Some(rows[k])
  {
    var k := FirstIndex(rows, key, id);
    if k < |rows| then Some(rows[k]) else None
  }

  /** Rows appended after a row that is already found do not change which one is found. */
  lemma FindFirstAppend<T>(a: seq<T>, b: seq<T>, key: T -> int, id: int)
    requires FindFirst(a, key, id).Some?
    ensures FindFirst(a + b, key, id) == FindFirst(a, key, id)
  {
    var k := FirstIndex(a, key, id);
    assert forall j :: 0 <= j <= k ==> (a + b)[j] == a[j];
  }
}
