/**
 The one table everything is stored in: items under composite keys, written under
 conditions, singly or in all-or-nothing transactions.
 */
module DynamoTable {
  import opened Types
  import opened Decimal
  import opened Items
  import opened Keys

  type Rows = map<Key, Item>

  /** The conditions the repository attaches to its writes. */
  datatype Condition =
    | Always
    | Absent                    // no such item
    | Present
    | Unowned                   // no stack_id, or an empty one; an absent item has none
    | PresentUnowned
    | UnownedSince(before: int) // unowned, and no locked_at or one before this

  datatype Write =
    | Put(key: Key, item: Item, cond: Condition)
    | Update(key: Key, sets: Item, cond: Condition)
    | Delete(key: Key, cond: Condition)

  /** A transaction names one item twice, or the listed conditions fail. */
  datatype TxError = Repeated | Cancelled(failed: seq<bool>)

  function Row(rows: Rows, key: Key): Option<Item> {
    if key in rows then Some(rows[key]) else None
  }

  predicate IsUnowned(row: Option<Item>) {
    row.Some? && Name.StackID in row.value ==> row.value[Name.StackID] == S("")
  }

  predicate IsLockedBefore(row: Option<Item>, before: int) {
    row.Some? && Name.LockedAt in row.value ==>
      var at := row.value[Name.LockedAt];
      at.N? && Number(at.digits).Some? && Number(at.digits).value < before
  }

  predicate Holds(cond: Condition, row: Option<Item>) {
    match cond
    case Always => true
    case Absent => row.None?
    case Present => row.Some?
    case Unowned => IsUnowned(row)
    case PresentUnowned => row.Some? && IsUnowned(row)
    case UnownedSince(before) => IsUnowned(row) && IsLockedBefore(row, before)
  }

  /** An update of an absent item inserts it. */
  function Applied(rows: Rows, w: Write): Rows {
    match w
    case Put(key, item, _) => rows[key := item]
    case Update(key, sets, _) => rows[key := (if key in rows then rows[key] else map[]) + sets]
    case Delete(key, _) => rows - {key}
  }

  /** One conditional write, or `None` when its condition fails. */
  function WriteItem(rows: Rows, w: Write): Option<Rows> {
    if Holds(w.cond, Row(rows, w.key)) then Some(Applied(rows, w)) else None
  }

  function AppliedAll(rows: Rows, ws: seq<Write>): Rows {
    if ws == [] then rows else Applied(AppliedAll(rows, ws[..|ws| - 1]), ws[|ws| - 1])
  }

  predicate Repeats(ws: seq<Write>) {
    exists i, j :: 0 <= i < j < |ws| && ws[i].key == ws[j].key
  }

  function FailedConditions(rows: Rows, ws: seq<Write>): seq<bool> {
    seq(|ws|, i requires 0 <= i < |ws| => !Holds(ws[i].cond, Row(rows, ws[i].key)))
  }

  function Transact(rows: Rows, ws: seq<Write>): Result<Rows, TxError> {
    if Repeats(ws) then Err(Repeated)
    else if true in FailedConditions(rows, ws) then Err(Cancelled(FailedConditions(rows, ws)))
    else Ok(AppliedAll(rows, ws))
  }
}
