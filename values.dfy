/** PHP values as `json_decode($text, true)` produces them, and the array
    reads and writes the receipt post-processing performs on them.

    PHP arrays are ordered maps with value semantics: `$a['k'] = $v` replaces
    the entry for `k` where it stands, or appends a new entry at the end.
    Both JSON objects and JSON lists decode to such arrays. */
module PhpValues {

  datatype Option<+T> = None | Some(value: T) {
    function GetOr(default: T): T {
      match this
      case Some(v) => v
      case None => default
    }
  }

  /** An array key: a JSON list yields integer keys, a JSON object string keys. */
  datatype Key = IntKey(i: int) | StrKey(s: string)

  /** A decoded JSON value. Integers and floats are both `Num`. */
  datatype Value =
    | Null
    | Bool(b: bool)
    | Num(n: real)
    | Str(s: string)
    | Arr(entries: seq<Entry>)

  datatype Entry = Entry(key: Key, val: Value)

  /** The value stored under `k`, if the array has an entry for it. */
  function Lookup(entries: seq<Entry>, k: Key): Option<Value> {
    if entries == [] then None
    else if entries[0].key == k then Some(entries[0].val)
    else Lookup(entries[1..], k)
  }

  /** An array without an entry for `k` yields nothing for it. */
  lemma {:induction false} LookupAbsent(entries: seq<Entry>, k: Key)
    requires forall i :: 0 <= i < |entries| ==> entries[i].key != k
    ensures Lookup(entries, k) == None
  {
    if entries != [] {
      assert forall i :: 0 <= i < |entries| - 1 ==> entries[1..][i] == entries[i + 1];
      LookupAbsent(entries[1..], k);
    }
  }

  /** The first entry for `k` is the one a read finds. */
  lemma {:induction false} LookupFirst(entries: seq<Entry>, k: Key, i: nat)
    requires i < |entries| && entries[i].key == k
    requires forall j :: 0 <= j < i ==> entries[j].key != k
    ensures Lookup(entries, k) == Some(entries[i].val)
  {
    if i > 0 {
      assert forall j :: 0 <= j < i - 1 ==> entries[1..][j] == entries[j + 1];
      LookupFirst(entries[1..], k, i - 1);
    }
  }

  /** `$a[k] = v`: replace the entry for `k` in place, or append one. */
  function Update(entries: seq<Entry>, k: Key, v: Value): (r: seq<Entry>)
    ensures Lookup(r, k) == Some(v)
    ensures forall j :: j != k ==> Lookup(r, j) == Lookup(entries, j)
    ensures |r| == if Lookup(entries, k).Some? then |entries| else |entries| + 1
    ensures forall i :: 0 <= i < |entries| && entries[i].key != k ==> r[i] == entries[i]
    ensures Lookup(entries, k).None? ==> r == entries + [Entry(k, v)]
  {
    if entries == [] then [Entry(k, v)]
    else if entries[0].key == k then [Entry(k, v)] + entries[1..]
    else
      var rest := Update(entries[1..], k, v);
      var r := [entries[0]] + rest;
      assert r[1..] == rest;
      assert forall i :: 1 <= i < |entries| ==> entries[i] == entries[1..][i - 1] && r[i] == rest[i - 1];
      if Lookup(entries, k).None? then
        assert rest == entries[1..] + [Entry(k, v)];
        assert r == entries + [Entry(k, v)];
        r
      else r
  }

  /** Writing back the value an entry already holds changes nothing. */
  lemma {:induction false} UpdateExisting(entries: seq<Entry>, k: Key, v: Value)
    requires Lookup(entries, k) == Some(v)
    ensures Update(entries, k, v) == entries
  {
    if entries[0].key != k {
      UpdateExisting(entries[1..], k, v);
      assert [entries[0]] + entries[1..] == entries;
    }
  }

  /** A second write to the same key overrides the first and keeps its position. */
  lemma {:induction false} UpdateTwice(entries: seq<Entry>, k: Key, v: Value, w: Value)
    ensures Update(Update(entries, k, v), k, w) == Update(entries, k, w)
  {
    if entries != [] && entries[0].key != k {
      var u := Update(entries, k, v);
      assert u == [entries[0]] + Update(entries[1..], k, v);
      assert u[0] == entries[0] && u[1..] == Update(entries[1..], k, v);
      UpdateTwice(entries[1..], k, v, w);
    }
  }

  /** An array's entry for a string key, as seen by `isset`/`??` reads:
      nothing when `v` is not an array (`??` on a scalar yields null). */
  function Field(v: Value, k: string): (r: Option<Value>)
    ensures r.Some? ==> v.Arr?
  {
    if v.Arr? then Lookup(v.entries, StrKey(k)) else None
  }

  /** `$v[k] ?? null`: the stored value, or null for a missing key or a scalar `v`. */
  function Index(v: Value, k: string): (r: Value)
    ensures v.Arr? && Lookup(v.entries, StrKey(k)).Some? ==> r == Lookup(v.entries, StrKey(k)).value
    ensures !v.Arr? || Lookup(v.entries, StrKey(k)).None? ==> r == Null
  {
    Field(v, k).GetOr(Null)
  }

  /** `isset($v[k])`: an entry that is not null. */
  predicate IsSet(v: Value, k: string)
    ensures IsSet(v, k) <==> v.Arr? && Lookup(v.entries, StrKey(k)).Some? && Lookup(v.entries, StrKey(k)).value != Null
  {
    Index(v, k) != Null
  }

  /** `$a ?? $b` on values: the first operand unless it is null. */
  function Coalesce(a: Value, b: Value): (r: Value)
    ensures a != Null ==> r == a
    ensures a == Null ==> r == b
    ensures r == Null <==> a == Null && b == Null
  {
    if a != Null then a else b
  }

  /** `empty($x)`: the values PHP treats as false, one kind at a time. */
  predicate Falsy(v: Value)
    ensures v.Null? ==> Falsy(v)
    ensures v.Bool? ==> (Falsy(v) <==> !v.b)
    ensures v.Num? ==> (Falsy(v) <==> v.n == 0.0)
    ensures v.Str? ==> (Falsy(v) <==> v.s == "" || v.s == "0")
    ensures v.Arr? ==> (Falsy(v) <==> v.entries == [])
  {
    v == Null || v == Bool(false) || v == Num(0.0) || v == Str("") || v == Str("0") || v == Arr([])
  }

  /** `$v[k] = x` on an array value. */
  function Put(v: Value, k: string, x: Value): (r: Value)
    requires v.Arr?
    ensures r.Arr?
    ensures Field(r, k) == Some(x)
    ensures forall j :: j != StrKey(k) ==> Lookup(r.entries, j) == Lookup(v.entries, j)
  {
    Arr(Update(v.entries, StrKey(k), x))
  }

  lemma PutOther(v: Value, k: string, x: Value, j: string)
    requires v.Arr? && j != k
    ensures Field(Put(v, k, x), j) == Field(v, j)
  {
    assert StrKey(j) != StrKey(k);
  }

  lemma PutExisting(v: Value, k: string, x: Value)
    requires Field(v, k) == Some(x)
    ensures Put(v, k, x) == v
  {
    UpdateExisting(v.entries, StrKey(k), x);
  }

  lemma PutTwice(v: Value, k: string, x: Value, y: Value)
    requires v.Arr?
    ensures Put(Put(v, k, x), k, y) == Put(v, k, y)
  {
    UpdateTwice(v.entries, StrKey(k), x, y);
  }
}
