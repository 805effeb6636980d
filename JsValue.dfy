/** The loosely typed values the user interface handles: the cells of a
    decoded sheet, the fields of a record, and the plain JavaScript objects
    that hold them (own string keys in insertion order). */
module JsValue {
  import opened JsString

  /** A cell or field value. Numbers are integral here. */
  datatype Value = Undefined | Null | Bool(b: bool) | Num(n: int) | Str(s: string)

  /** JavaScript truthiness: `undefined`, `null`, `false`, `0` and `''` are
      the falsy values. */
  predicate Truthy(v: Value) {
    match v
    case Undefined => false
    case Null => false
    case Bool(b) => b
    case Num(n) => n != 0
    case Str(s) => s != []
  }

  /** `String(v)`: strings print as themselves, and only the empty string
      prints as nothing. */
  function ToString(v: Value): (t: string)
    ensures v.Str? ==> t == v.s
    ensures t == [] <==> v == Str([])
  {
    match v
    case Undefined => "undefined"
    case Null => "null"
    case Bool(b) => if b then "true" else "false"
    case Num(n) => NumberToString(n)
    case Str(s) => s
  }

  /** The five falsy values. */
  lemma FalsyValues(v: Value)
    ensures !Truthy(v) <==> v == Undefined || v == Null || v == Bool(false) || v == Num(0) || v == Str([])
  {
  }

  /** An object as its own properties, in insertion order. */
  datatype Obj = Obj(entries: seq<(string, Value)>)

  /** The object without its first property. */
  function Rest(o: Obj): Obj
    requires o.entries != []
  {
    Obj(o.entries[1..])
  }

  /** `Object.keys(o)`. */
  function Keys(o: Obj): seq<string>
    decreases |o.entries|
  {
    if o.entries == [] then [] else [o.entries[0].0] + Keys(Rest(o))
  }

  /** `Object.keys(o)` lists the property names in entry order. */
  lemma {:induction false} KeysAreEntryNames(o: Obj)
    ensures |Keys(o)| == |o.entries|
    ensures forall j :: 0 <= j < |o.entries| ==> Keys(o)[j] == o.entries[j].0
    decreases |o.entries|
  {
    if o.entries != [] {
      KeysAreEntryNames(Rest(o));
    }
  }

  /** A JavaScript object never has the same key twice. */
  predicate WellFormed(o: Obj)
    decreases |o.entries|
  {
    o.entries == [] || (o.entries[0].0 !in Keys(Rest(o)) && WellFormed(Rest(o)))
  }

  /** The objects a program can build: no key twice. */
  type Object = o: Obj | WellFormed(o) witness Obj([])

  /** Property lookup `o[k]`: `undefined` for a missing key. */
  function Get(o: Obj, k: string): (v: Value)
    ensures k !in Keys(o) ==> v == Undefined
    decreases |o.entries|
  {
    if o.entries == [] then Undefined
    else if o.entries[0].0 == k then o.entries[0].1
    else Get(Rest(o), k)
  }

  /** Property assignment `o[k] = v`: the object keeps all its properties
      and gains at most one. */
  function Put(o: Obj, k: string, v: Value): (r: Obj)
    ensures |o.entries| <= |r.entries| <= |o.entries| + 1
    ensures r.entries != [] && r.entries[0].0 == if o.entries == [] then k else o.entries[0].0
    decreases |o.entries|
  {
    if o.entries == [] then Obj([(k, v)])
    else if o.entries[0].0 == k then Obj([(k, v)] + o.entries[1..])
    else Obj([o.entries[0]] + Put(Rest(o), k, v).entries)
  }

  /** Assignment keeps an existing key in its place and appends a new one. */
  lemma {:induction false} PutKeys(o: Obj, k: string, v: Value)
    ensures Keys(Put(o, k, v)) == if k in Keys(o) then Keys(o) else Keys(o) + [k]
    decreases |o.entries|
  {
    if o.entries != [] && o.entries[0].0 != k {
      PutKeys(Rest(o), k, v);
      assert Rest(Put(o, k, v)) == Put(Rest(o), k, v);
    } else if o.entries != [] {
      assert Rest(Put(o, k, v)) == Rest(o);
    }
  }

  /** After `o[k] = v`, reading `k` gives `v` and every other key reads as
      before. */
  lemma {:induction false} PutGet(o: Obj, k: string, v: Value, k': string)
    ensures Get(Put(o, k, v), k') == if k' == k then v else Get(o, k')
    decreases |o.entries|
  {
    if o.entries != [] && o.entries[0].0 != k {
      PutGet(Rest(o), k, v, k');
      assert Rest(Put(o, k, v)) == Put(Rest(o), k, v);
    } else if o.entries != [] {
      assert Rest(Put(o, k, v)) == Rest(o);
    }
  }

  lemma {:induction false} PutWellFormed(o: Obj, k: string, v: Value)
    requires WellFormed(o)
    ensures WellFormed(Put(o, k, v))
    decreases |o.entries|
  {
    PutKeys(o, k, v);
    if o.entries != [] && o.entries[0].0 != k {
      PutWellFormed(Rest(o), k, v);
      PutKeys(Rest(o), k, v);
      assert Rest(Put(o, k, v)) == Put(Rest(o), k, v);
    } else if o.entries != [] {
      assert Rest(Put(o, k, v)) == Rest(o);
    }
  }

  /** The keys of `ks` that are not in `seen`, in their order. */
  function NewKeys(ks: seq<string>, seen: seq<string>): seq<string>
  {
    if ks == [] then [] else (if ks[0] in seen then [] else [ks[0]]) + NewKeys(ks[1..], seen)
  }

  lemma {:induction false} NewKeysMembers(ks: seq<string>, seen: seq<string>, k: string)
    ensures k in NewKeys(ks, seen) <==> k in ks && k !in seen
  {
    if ks != [] {
      NewKeysMembers(ks[1..], seen, k);
      assert ks == [ks[0]] + ks[1..];
    }
  }

  lemma {:induction false} NewKeysIgnoresAbsent(ks: seq<string>, seen: seq<string>, k: string)
    requires k !in ks
    ensures NewKeys(ks, seen + [k]) == NewKeys(ks, seen)
  {
    if ks != [] {
      NewKeysIgnoresAbsent(ks[1..], seen, k);
    }
  }

  /** Object spread `{...o, ...row}`: the properties of `row` are assigned
      onto `o` one by one, in `row`'s order. */
  function Spread(o: Obj, row: Obj): (r: Obj)
    ensures |o.entries| <= |r.entries| <= |o.entries| + |row.entries|
    ensures o.entries != [] ==> r.entries[0].0 == o.entries[0].0
    decreases |row.entries|
  {
    if row.entries == [] then o
    else Spread(Put(o, row.entries[0].0, row.entries[0].1), Rest(row))
  }

  /** Spreading keeps the keys of `o` in place and appends the keys of `row`
      that `o` lacks, in `row`'s order. */
  lemma {:induction false} SpreadKeys(o: Obj, row: Obj)
    requires WellFormed(row)
    ensures Keys(Spread(o, row)) == Keys(o) + NewKeys(Keys(row), Keys(o))
    decreases |row.entries|
  {
    if row.entries != [] {
      var (k0, v0) := row.entries[0];
      var ks := Keys(Rest(row));
      var o' := Put(o, k0, v0);
      assert Spread(o, row) == Spread(o', Rest(row));
      SpreadKeys(o', Rest(row));
      assert Keys(row) == [k0] + ks && k0 !in ks;
      PutKeys(o, k0, v0);
      if k0 in Keys(o) {
        assert NewKeys([k0] + ks, Keys(o)) == NewKeys(ks, Keys(o)) by {
          assert ([k0] + ks)[1..] == ks;
        }
      } else {
        NewKeysIgnoresAbsent(ks, Keys(o), k0);
        assert NewKeys([k0] + ks, Keys(o)) == [k0] + NewKeys(ks, Keys(o)) by {
          assert ([k0] + ks)[1..] == ks;
        }
        assert Keys(o) + [k0] + NewKeys(ks, Keys(o)) == Keys(o) + ([k0] + NewKeys(ks, Keys(o)));
      }
    } else {
      assert Keys(o) + [] == Keys(o);
    }
  }

  /** Spreading an object onto an object gives an object. */
  lemma {:induction false} SpreadWellFormed(o: Obj, row: Obj)
    requires WellFormed(o)
    ensures WellFormed(Spread(o, row))
    decreases |row.entries|
  {
    if row.entries != [] {
      PutWellFormed(o, row.entries[0].0, row.entries[0].1);
      SpreadWellFormed(Put(o, row.entries[0].0, row.entries[0].1), Rest(row));
    }
  }

  /** A key of `row` reads as in `row` after the spread; any other key reads
      as in `o`. */
  lemma {:induction false} SpreadGet(o: Obj, row: Obj, k: string)
    requires WellFormed(row)
    ensures Get(Spread(o, row), k) == if k in Keys(row) then Get(row, k) else Get(o, k)
    decreases |row.entries|
  {
    if row.entries != [] {
      var (k0, v0) := row.entries[0];
      SpreadGet(Put(o, k0, v0), Rest(row), k);
      PutGet(o, k0, v0, k);
    }
  }
}
