/** The script record (one row of the `scripts` table) and the values it is
    built from, together with the in-memory table that stands for the record
    store. */
module Records {

  datatype Option<+T> = None | Some(value: T)

  /** `m.get(k)` */
  function Lookup<K, V>(m: map<K, V>, k: K): (r: Option<V>)
    ensures r.Some? <==> k in m
    ensures r.Some? ==> r.value == m[k]
  {
    if k in m then Some(m[k]) else None
  }

  /** A point in time. `instant` is measured on the time line of the
      timestamp's own frame: a naive timestamp (no zone) is local wall-clock
      time, a zone-aware one is an absolute (UTC) instant. */
  datatype Timestamp = Timestamp(instant: int, naive: bool)

  /** The two readings of "now" that the code takes: `datetime.now()` (local)
      and `datetime.now(UTC)`. */
  datatype Clock = Clock(local: int, utc: int)

  /** The four interval units the schema admits. */
  datatype IntervalUnit = Seconds | Minutes | Hours | Days

  /** The stored weekday column is JSON text. It is either the encoding of a
      list of integers, or text that does not decode. */
  datatype WeekdaysJson = Encoded(days: seq<int>) | Unparseable

  /** One row of the `scripts` table, including the two scheduled-start
      columns that the code reads and the schema declares. */
  datatype Script = Script(
    id: int,
    name: string,
    path: string,
    description: Option<string>,
    isActive: bool,
    repeatEnabled: bool,
    intervalValue: Option<int>,
    intervalUnit: Option<IntervalUnit>,
    weekdays: Option<WeekdaysJson>,
    scheduledStartEnabled: bool,
    scheduledStartAt: Option<Timestamp>)

  /** The largest key of `rows` below `bound`, or 0 when there is none. */
  function LargestKeyBelow(rows: map<int, Script>, bound: int): (m: int)
    requires forall id :: id in rows ==> 1 <= id
    ensures m == 0 || (m in rows && m < bound)
    ensures forall id :: id in rows && id < bound ==> id <= m
    decreases bound
  {
    if bound <= 1 then 0
    else if bound - 1 in rows then bound - 1
    else LargestKeyBelow(rows, bound - 1)
  }

  /** The record store: rows keyed by primary key and the unique constraint
      on `name`. The key is SQLite's rowid: a new row gets one more than the
      largest key present (1 in an empty table), so keys freed by deleting
      the rows at the top are handed out again. `nextId` caches that value. */
  class ScriptTable {
    var rows: map<int, Script>
    var nextId: int

    ghost predicate Valid()
      reads this
    {
      && 1 <= nextId
      && (nextId == 1 || nextId - 1 in rows)
      && (forall id :: id in rows ==> rows[id].id == id && 1 <= id < nextId)
      && (forall a, b :: a in rows && b in rows && rows[a].name == rows[b].name ==> a == b)
    }

    /** Whether some row other than `except` already uses `name`. */
    predicate NameTaken(name: string, except: int)
      reads this
    {
      exists id :: id in rows && id != except && rows[id].name == name
    }

    constructor ()
      ensures Valid() && rows == map[] && nextId == 1
    {
      rows := map[];
      nextId := 1;
    }

    /** Insert a row under the next rowid. */
    method Insert(s: Script) returns (id: int)
      requires Valid()
      requires s.id == nextId && !NameTaken(s.name, s.id)
      modifies this
      ensures Valid()
      ensures id == old(nextId) && rows == old(rows)[id := s] && nextId == id + 1
    {
      id := nextId;
      rows := rows[id := s];
      nextId := nextId + 1;
    }

    /** Delete a row; the next rowid drops back when the last row goes. */
    method Delete(id: int)
      requires Valid() && id in rows
      modifies this
      ensures Valid()
      ensures rows == old(rows) - {id}
      ensures nextId == 1 + LargestKeyBelow(rows, old(nextId))
      ensures forall k :: k in rows ==> k < nextId
    {
      rows := rows - {id};
      nextId := 1 + LargestKeyBelow(rows, nextId);
    }
  }
}
