/**
 * The part of a pandas DataFrame the decoder relies on: an index length and
 * named columns kept in insertion order, where assigning to an existing name
 * replaces that column in place and assigning to a new name appends one.
 */
module Frames {

  /** A column with its dtype: object (text), int64, or float64 (kept as hundredths). */
  datatype Column = Texts(cells: seq<string>) | Ints(values: seq<int>) | Floats(hundredths: seq<int>)

  function Length(c: Column): nat {
    match c
    case Texts(cells) => |cells|
    case Ints(values) => |values|
    case Floats(hundredths) => |hundredths|
  }

  /** The contents of a frame: index length, column names in order, and the columns. */
  datatype Table<K> = Table(rows: nat, order: seq<K>, data: map<K, Column>)

  /** Column names are distinct, name exactly the stored columns, and every column fits the index. */
  ghost predicate WellFormed<K>(t: Table<K>) {
    && (forall i, j :: 0 <= i < j < |t.order| ==> t.order[i] != t.order[j])
    && (forall k :: k in t.data ==> k in t.order)
    && (forall i :: 0 <= i < |t.order| ==> t.order[i] in t.data)
    && (forall k :: k in t.data ==> Length(t.data[k]) == t.rows)
  }

  /** `df[name] = c` on the contents of a frame. */
  function Assign<K(==)>(t: Table<K>, name: K, c: Column): Table<K> {
    Table(t.rows, if name in t.data then t.order else t.order + [name], t.data[name := c])
  }

  /**
   * Assignment keeps every existing column where it was, puts `c` under `name`,
   * appends `name` only when it is new, and leaves every other column alone.
   */
  lemma AssignPositions<K>(t: Table<K>, name: K, c: Column)
    requires WellFormed(t) && Length(c) == t.rows
    ensures var r := Assign(t, name, c);
      && WellFormed(r)
      && |r.order| == (if name in t.order then |t.order| else |t.order| + 1)
      && (forall i :: 0 <= i < |t.order| ==> r.order[i] == t.order[i])
      && name in r.order && r.data[name] == c
      && (forall k :: k in t.data && k != name ==> r.data[k] == t.data[k])
  {
    var r := Assign(t, name, c);
    if name !in t.data {
      assert r.order == t.order + [name];
      forall i, j | 0 <= i < j < |r.order|
        ensures r.order[i] != r.order[j]
      {
        if j == |t.order| {
          assert t.order[i] in t.data;
        }
      }
    }
  }

  /** A frame object whose columns are assigned in place, as pandas does. */
  class Frame<K(==)> {
    var rows: nat
    var order: seq<K>
    var data: map<K, Column>

    function Value(): Table<K>
      reads this
    {
      Table(rows, order, data)
    }

    ghost predicate Valid()
      reads this
    {
      WellFormed(Value())
    }

    /** `pd.DataFrame(index=...)` with `n` index entries and no column yet. */
    constructor (n: nat)
      ensures Valid() && Value() == Table(n, [], map[])
    {
      rows, order, data := n, [], map[];
    }

    /**
     * `df[name] = c`: replaces the column in place when `name` exists,
     * appends it otherwise, and keeps the frame well formed.
     */
    method Set(name: K, c: Column)
      requires Valid() && Length(c) == rows
      modifies this
      ensures Valid() && Value() == Assign(old(Value()), name, c)
    {
      AssignPositions(Value(), name, c);
      if name !in data {
        order := order + [name];
      }
      data := data[name := c];
    }
  }
}
