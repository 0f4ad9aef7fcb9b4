/** The relational layer under the ORM: a table is the sequence of its rows in
    rowid order (the order in which SQLite returns an unordered full scan),
    each row carrying its integer primary key. */
module Tables {
  import opened Wrappers

  datatype Row<+T> = Row(id: int, val: T)

  type Table<T> = seq<Row<T>>

  /** Rowid order: keys strictly increase along the table, so they are distinct. */
  ghost predicate Ascending<T>(t: Table<T>)
  {
    forall i, j :: 0 <= i < j < |t| ==> t[i].id < t[j].id
  }

  function Min(a: int, b: int): int
  {
    if a <= b then a else b
  }

  /** Index of the first row that satisfies `p`: `query(...).filter(p).first()`. */
  function FindFirst<T>(t: Table<T>, p: Row<T> -> bool): (k: Option<nat>)
    ensures k.Some? ==> k.value < |t| && p(t[k.value])
    ensures k.Some? ==> forall i :: 0 <= i < k.value ==> !p(t[i])
    ensures k.None? <==> forall i :: 0 <= i < |t| ==> !p(t[i])
  {
    if |t| == 0 then None
    else if p(t[0]) then Some(0)
    else match FindFirst(t[1..], p)
      case None => None
      case Some(k) => Some(k + 1)
  }

  /** Index of the row whose key is `id`. */
  function Find<T>(t: Table<T>, id: int): (k: Option<nat>)
    ensures k.Some? ==> k.value < |t| && t[k.value].id == id
    ensures k.None? <==> forall i :: 0 <= i < |t| ==> t[i].id != id
  {
    FindFirst(t, (r: Row<T>) => r.id == id)
  }

  /** The row whose key is `id`: `query(...).filter(id == ...).first()`. */
  function Get<T>(t: Table<T>, id: int): (r: Option<Row<T>>)
    ensures r.Some? ==> r.value in t && r.value.id == id
    ensures r.None? <==> forall i :: 0 <= i < |t| ==> t[i].id != id
  {
    match Find(t, id)
    case None => None
    case Some(k) => Some(t[k])
  }

  /** `query(...).filter(p).all()`: exactly the rows satisfying `p`, in table order. */
  function Filter<T>(t: Table<T>, p: Row<T> -> bool): (r: Table<T>)
    ensures forall i :: 0 <= i < |r| ==> r[i] in t && p(r[i])
    ensures forall i :: 0 <= i < |t| && p(t[i]) ==> t[i] in r
    ensures |r| <= |t|
    ensures (forall i :: 0 <= i < |t| ==> !p(t[i])) ==> r == []
    ensures Ascending(t) ==> Ascending(r)
  {
    if |t| == 0 then []
    else
      var rest := Filter(t[1..], p);
      assert forall i :: 1 <= i < |t| ==> t[i] == t[1..][i - 1];
      if p(t[0]) then [t[0]] + rest else rest
  }

  /** `query(...).offset(skip).limit(limit).all()`. */
  function Page<T>(t: Table<T>, skip: nat, limit: nat): (r: Table<T>)
    ensures |r| == if skip >= |t| then 0 else Min(limit, |t| - skip)
    ensures forall i :: 0 <= i < |r| ==> r[i] == t[skip + i]
  {
    if skip >= |t| then [] else t[skip .. skip + Min(limit, |t| - skip)]
  }

  /** The largest key in a non-empty table. */
  function MaxId<T>(t: Table<T>): (m: int)
    requires |t| > 0
    ensures forall i :: 0 <= i < |t| ==> t[i].id <= m
    ensures exists i :: 0 <= i < |t| && t[i].id == m
  {
    if |t| == 1 then t[0].id
    else
      var m := MaxId(t[1..]);
      assert forall i :: 1 <= i < |t| ==> t[i] == t[1..][i - 1];
      if t[0].id > m then t[0].id else m
  }

  /** The key SQLite gives an inserted row: one more than the largest key in
      the table, or 1 when the table is empty. */
  function NextId<T>(t: Table<T>): (n: int)
    ensures forall i :: 0 <= i < |t| ==> t[i].id < n
    ensures t == [] ==> n == 1
  {
    if |t| == 0 then 1 else MaxId(t) + 1
  }

  /** `db.add(row)`: the row is appended under a fresh key. */
  function Insert<T>(t: Table<T>, v: T): (r: Table<T>)
    ensures |r| == |t| + 1 && r[..|t|] == t && r[|t|].val == v
    ensures Get(t, r[|t|].id).None?
    ensures Ascending(t) ==> Ascending(r)
  {
    t + [Row(NextId(t), v)]
  }

  /** Writing the columns of the row at index `k`; its key stays. */
  function SetAt<T>(t: Table<T>, k: nat, v: T): (r: Table<T>)
    requires k < |t|
    ensures |r| == |t| && r[k] == Row(t[k].id, v)
    ensures forall i :: 0 <= i < |t| && i != k ==> r[i] == t[i]
    ensures Ascending(t) ==> Ascending(r)
  {
    t[k := Row(t[k].id, v)]
  }

  /** In rowid order, the row at index `k` is the only one with its key. */
  lemma SameKeySameIndex<T>(t: Table<T>, k: nat)
    requires Ascending(t) && k < |t|
    ensures forall j :: 0 <= j < |t| ==> (j != k <==> t[j].id != t[k].id)
  {
    forall j | 0 <= j < |t|
      ensures j != k <==> t[j].id != t[k].id
    {
      if j < k {
        assert t[j].id < t[k].id;
      } else if j > k {
        assert t[k].id < t[j].id;
      }
    }
  }

  /** `db.delete(row)` for the row at index `k`. */
  function RemoveAt<T>(t: Table<T>, k: nat): (r: Table<T>)
    requires k < |t|
    ensures |r| == |t| - 1
    ensures forall i :: 0 <= i < k ==> r[i] == t[i]
    ensures forall i :: k <= i < |r| ==> r[i] == t[i + 1]
    ensures forall i :: 0 <= i < |r| ==> r[i] in t
    ensures Ascending(t) ==> Ascending(r) && Get(r, t[k].id).None?
  {
    t[..k] + t[k + 1..]
  }
}
