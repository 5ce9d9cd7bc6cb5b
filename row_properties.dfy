/**
 * What `processRow` promises, stated against references that do not
 * mention the six dictionaries: which value each family keeps at an index,
 * which columns are copied through, in what order, and which proprietors
 * come out.
 */
module RowProperties {
  import opened Wrappers
  import opened JsObjects
  import opened ColumnPatterns
  import opened RowTransform

  /** The cell under `key` is present and its column is family `f` at `index`. */
  predicate Files(row: Row, key: string, f: Family, index: string) {
    Present(row, key).Some? && Classify(key) == Indexed(f, index)
  }

  /** The value of the last present cell among `keys` whose column is family `f` at `index`. */
  function LastValue(row: Row, keys: seq<string>, f: Family, index: string): Option<string>
    decreases |keys|
  {
    if keys == [] then None
    else
      var key := keys[|keys| - 1];
      if Files(row, key, f, index) then Present(row, key)
      else LastValue(row, keys[..|keys| - 1], f, index)
  }

  /** The indices of family `f` in the order their first present cell appears among `keys`. */
  function FirstSightings(row: Row, keys: seq<string>, f: Family): seq<string>
    decreases |keys|
  {
    if keys == [] then []
    else
      var key := keys[|keys| - 1];
      var rest := FirstSightings(row, keys[..|keys| - 1], f);
      match Classify(key)
      case Indexed(f', i) => if f' == f && Present(row, key).Some? && i !in rest then rest + [i] else rest
      case Plain => rest
  }

  /** A present cell as the output record holds it. */
  function AsText(cell: Option<string>): Option<Value> {
    match cell
    case Some(v) => Some(Text(v))
    case None => None
  }

  /** The keys among `keys` whose cells are present and whose columns match no pattern. */
  function PlainKeys(row: Row, keys: seq<string>): seq<string>
    decreases |keys|
  {
    if keys == [] then []
    else
      var key := keys[|keys| - 1];
      var rest := PlainKeys(row, keys[..|keys| - 1]);
      if Present(row, key).Some? && Classify(key) == Plain then rest + [key] else rest
  }

  /** Filing a cell changes family `f` at `index` only when the cell is filed there. */
  lemma FileFamilies(g: Groups, key: string, column: Column, cell: Option<string>, f: Family, index: string)
    requires g.Valid()
    ensures File(g, key, column, cell).Dict(f).Get(index) ==
      if cell.Some? && column == Indexed(f, index) then cell else g.Dict(f).Get(index)
    ensures File(g, key, column, cell).Dict(f).keys ==
      if cell.Some? && column.Indexed? && column.family == f && column.index !in g.Dict(f).keys
      then g.Dict(f).keys + [column.index]
      else g.Dict(f).keys
  {
    match cell
    case None =>
    case Some(v) =>
      match column
      case Indexed(f', i') =>
        assert g.Dict(f').Valid();
      case Plain =>
  }

  /** One turn of the first loop changes family `f` at `index` only by filing a cell there. */
  lemma AcceptFamilies(g: Groups, row: Row, key: string, f: Family, index: string)
    requires g.Valid()
    ensures Accept(g, row, key).Dict(f).Get(index) ==
      if Files(row, key, f, index) then Present(row, key) else g.Dict(f).Get(index)
    ensures Accept(g, row, key).Dict(f).keys ==
      if Present(row, key).Some? && Classify(key).Indexed? && Classify(key).family == f
         && Classify(key).index !in g.Dict(f).keys
      then g.Dict(f).keys + [Classify(key).index]
      else g.Dict(f).keys
  {
    FileFamilies(g, key, Classify(key), Present(row, key), f, index);
  }

  /** After the first loop, family `f` holds at `index` the last value filed there. */
  lemma {:induction false} ScanFamilies(row: Row, keys: seq<string>, f: Family, index: string)
    ensures Scan(row, keys).Dict(f).Get(index) == LastValue(row, keys, f, index)
    decreases |keys|
  {
    if keys != [] {
      var init := keys[..|keys| - 1];
      ScanFamilies(row, init, f, index);
      AcceptFamilies(Scan(row, init), row, keys[|keys| - 1], f, index);
    }
  }

  /** Family `f`'s dictionary lists its indices in the order of their first sighting. */
  lemma {:induction false} ScanFamilyKeys(row: Row, keys: seq<string>, f: Family)
    ensures Scan(row, keys).Dict(f).keys == FirstSightings(row, keys, f)
    decreases |keys|
  {
    if keys != [] {
      var init := keys[..|keys| - 1];
      ScanFamilyKeys(row, init, f);
      AcceptFamilies(Scan(row, init), row, keys[|keys| - 1], f, "");
    }
  }

  /** A family holds a value at an index exactly when some present cell among `keys` is filed there. */
  lemma {:induction false} LastValueSome(row: Row, keys: seq<string>, f: Family, index: string)
    ensures LastValue(row, keys, f, index).Some? <==> exists key :: key in keys && Files(row, key, f, index)
    decreases |keys|
  {
    if keys != [] {
      var init, last := keys[..|keys| - 1], keys[|keys| - 1];
      LastValueSome(row, init, f, index);
      assert keys == init + [last];
      if !Files(row, last, f, index) {
        forall key | key in keys && Files(row, key, f, index) ensures key in init {
        }
      }
    }
  }

  /** Filing a cell writes the output only under a plain column with a present cell. */
  lemma FileOut(g: Groups, key: string, column: Column, cell: Option<string>, k: string)
    requires g.Valid()
    ensures File(g, key, column, cell).out.Get(k) ==
      if k == key && cell.Some? && column == Plain then AsText(cell) else g.out.Get(k)
    ensures File(g, key, column, cell).out.keys ==
      if cell.Some? && column == Plain && key !in g.out.keys then g.out.keys + [key] else g.out.keys
  {
    match cell
    case None =>
    case Some(v) =>
      match column
      case Indexed(f', i') =>
        assert g.Dict(f').Valid();
      case Plain =>
  }

  /** One turn of the first loop writes the output only under a plain key with a present cell. */
  lemma AcceptOut(g: Groups, row: Row, key: string, k: string)
    requires g.Valid()
    ensures Accept(g, row, key).out.Get(k) ==
      if k == key && Present(row, key).Some? && Classify(key) == Plain then AsText(Present(row, key))
      else g.out.Get(k)
    ensures Accept(g, row, key).out.keys ==
      if Present(row, key).Some? && Classify(key) == Plain && key !in g.out.keys then g.out.keys + [key]
      else g.out.keys
  {
    FileOut(g, key, Classify(key), Present(row, key), k);
  }

  /** After the first loop, the output holds a key exactly when its cell is present and its column is plain. */
  lemma {:induction false} ScanOut(row: Row, keys: seq<string>, key: string)
    ensures Scan(row, keys).out.Get(key) ==
      if key in keys && Classify(key) == Plain then AsText(Present(row, key)) else None
    decreases |keys|
  {
    if keys != [] {
      var init, last := keys[..|keys| - 1], keys[|keys| - 1];
      ScanOut(row, init, key);
      AcceptOut(Scan(row, init), row, last, key);
      assert key in keys <==> key in init || key == last;
    }
  }

  lemma {:induction false} PlainKeysIn(row: Row, keys: seq<string>)
    ensures forall k :: k in PlainKeys(row, keys) ==> k in keys
    decreases |keys|
  {
    if keys != [] {
      PlainKeysIn(row, keys[..|keys| - 1]);
    }
  }

  /** The output's own key order is the order in which the loop met its plain keys. */
  lemma {:induction false} ScanOutKeys(row: Row, keys: seq<string>)
    requires Distinct(keys)
    ensures Scan(row, keys).out.keys == PlainKeys(row, keys)
    decreases |keys|
  {
    if keys != [] {
      var init, last := keys[..|keys| - 1], keys[|keys| - 1];
      assert Distinct(init);
      ScanOutKeys(row, init);
      PlainKeysIn(row, init);
      assert last !in init;
      AcceptOut(Scan(row, init), row, last, last);
    }
  }

  /** The first loop sees a cell only through `Present`: rows that agree there scan alike. */
  lemma {:induction false} ScanCongruent(row1: Row, row2: Row, keys: seq<string>)
    requires forall k :: k in keys ==> Present(row1, k) == Present(row2, k)
    ensures Scan(row1, keys) == Scan(row2, keys)
    decreases |keys|
  {
    if keys != [] {
      var init, last := keys[..|keys| - 1], keys[|keys| - 1];
      ScanCongruent(row1, row2, init);
      assert last in keys;
      AcceptCongruent(Scan(row1, init), row1, row2, last);
    }
  }

  lemma AcceptCongruent(g: Groups, row1: Row, row2: Row, key: string)
    requires g.Valid()
    requires Present(row1, key) == Present(row2, key)
    ensures Accept(g, row1, key) == Accept(g, row2, key)
  {
  }

  /** The second loop builds, in order, one proprietor per index it is given. */
  lemma {:induction false} AssembleElements(g: Groups, indices: seq<string>)
    requires forall i :: i in indices ==> i in g.names.values
    ensures |Assemble(g, indices)| == |indices|
    ensures forall j :: 0 <= j < |indices| ==> Assemble(g, indices)[j] == ProprietorAt(g, indices[j])
    decreases |indices|
  {
    if indices != [] {
      AssembleElements(g, indices[..|indices| - 1]);
    }
  }

  /** The key `proprietors` matches none of the six patterns. */
  lemma ProprietorsKeyPlain()
    ensures Classify(ProprietorsKey) == Plain
  {
    assert |ProprietorsKey| == 11;
  }

  /** The indices the second loop walks, in its order: the name dictionary's own keys. */
  function NameIndices(row: Row): seq<string> {
    Scan(row, row.OwnKeys()).names.OwnKeys()
  }

  /**
   * One index per distinct name index: an index is walked exactly when some
   * present name cell carries it, each once, array indices first and ascending,
   * every other index in the order of its first sighting.
   */
  lemma NameIndicesSpec(row: Row)
    ensures Distinct(NameIndices(row))
    ensures forall i :: i in NameIndices(row) <==> LastValue(row, row.OwnKeys(), Name, i).Some?
    ensures var r := NameIndices(row);
      forall i, j :: 0 <= i < j < |r| && IsArrayIndex(r[j]) ==>
        IsArrayIndex(r[i]) && DigitsValue(r[i]) <= DigitsValue(r[j])
    ensures Select(NameIndices(row), false) == Select(FirstSightings(row, row.OwnKeys(), Name), false)
  {
    var g := Scan(row, row.OwnKeys());
    assert g.names == g.Dict(Name);
    EnumerationOrderPermutes(g.names.keys);
    EnumerationOrderSorts(g.names.keys);
    ScanFamilyKeys(row, row.OwnKeys(), Name);
    forall i ensures i in NameIndices(row) <==> LastValue(row, row.OwnKeys(), Name, i).Some? {
      ScanFamilies(row, row.OwnKeys(), Name, i);
    }
  }

  /** The field of a proprietor that family `f` fills; the name is always there. */
  function Field(p: Proprietor, f: Family): Option<string> {
    match f
    case Name => Some(p.name)
    case Category => p.category
    case Registration => p.companiesHouseNumber
    case Address1 => p.address1
    case Address2 => p.address2
    case Address3 => p.address3
  }

  /**
   * `p` is the proprietor for `index`: each of its fields holds the value of
   * the same index in the family that fills it, and is absent where there is none.
   */
  predicate DescribesProprietor(row: Row, p: Proprietor, index: string) {
    forall f :: Field(p, f) == LastValue(row, row.OwnKeys(), f, index)
  }

  /** `ps` is what the second loop builds: one proprietor per walked index, in order. */
  predicate DescribesProprietors(row: Row, ps: seq<Proprietor>) {
    var indices := NameIndices(row);
    && |ps| == |indices|
    && forall j :: 0 <= j < |ps| ==> DescribesProprietor(row, ps[j], indices[j])
  }

  /** The proprietor built for a name index gathers that index across the families. */
  lemma ProprietorAtDescribes(row: Row, index: string)
    requires index in Scan(row, row.OwnKeys()).names.values
    ensures DescribesProprietor(row, ProprietorAt(Scan(row, row.OwnKeys()), index), index)
  {
    var g := Scan(row, row.OwnKeys());
    var p := ProprietorAt(g, index);
    forall f ensures Field(p, f) == LastValue(row, row.OwnKeys(), f, index) {
      ScanFamilies(row, row.OwnKeys(), f, index);
      assert Field(p, f) == g.Dict(f).Get(index);
    }
  }

  /** The list the second loop builds is described field by field by the families. */
  lemma AssembleDescribes(row: Row)
    ensures DescribesProprietors(row, ProprietorList(row))
  {
    var g := Scan(row, row.OwnKeys());
    var indices := g.names.OwnKeys();
    EnumerationOrderPermutes(g.names.keys);
    AssembleElements(g, indices);
    var ps := Assemble(g, indices);
    assert ps == ProprietorList(row);
    forall j | 0 <= j < |ps| ensures DescribesProprietor(row, ps[j], indices[j]) {
      ProprietorAtDescribes(row, indices[j]);
    }
  }

  /** Some present cell of the row is a proprietor name. */
  predicate HasNameCell(row: Row) {
    exists key :: key in row.keys && Present(row, key).Some? && Classify(key).Indexed? && Classify(key).family == Name
  }

  /** The second loop walks some index exactly when the row has a present name cell. */
  lemma NameIndicesNonEmpty(row: Row)
    requires row.Valid()
    ensures |NameIndices(row)| > 0 <==> HasNameCell(row)
  {
    var keys := row.OwnKeys();
    NameIndicesSpec(row);
    EnumerationOrderPermutes(row.keys);
    if |NameIndices(row)| > 0 {
      var i := NameIndices(row)[0];
      LastValueSome(row, keys, Name, i);
      var key :| key in keys && Files(row, key, Name, i);
      assert key in row.keys;
    }
    if HasNameCell(row) {
      var key :| key in row.keys && Present(row, key).Some? && Classify(key).Indexed? && Classify(key).family == Name;
      var i := Classify(key).index;
      assert key in keys && Files(row, key, Name, i);
      LastValueSome(row, keys, Name, i);
      assert i in NameIndices(row);
    }
  }

  /**
   * Every column but `proprietors` comes out as the row had it when its cell
   * is present and it matches none of the six patterns, and is absent otherwise.
   */
  lemma TransformColumn(row: Row, key: string)
    requires row.Valid()
    requires key != ProprietorsKey
    ensures Transform(row).Get(key) == if Classify(key) == Plain then AsText(Present(row, key)) else None
  {
    ScanOut(row, row.OwnKeys(), key);
    EnumerationOrderPermutes(row.keys);
  }

  /**
   * The output has a `proprietors` list exactly when the row has a present
   * name cell, and the list is the one the families describe; without a
   * name cell, a `proprietors` column of the row passes through as any other.
   */
  lemma TransformProprietors(row: Row)
    requires row.Valid()
    ensures HasNameCell(row) ==>
      |ProprietorList(row)| > 0 && Transform(row).Get(ProprietorsKey) == Some(Proprietors(ProprietorList(row)))
    ensures !HasNameCell(row) ==> Transform(row).Get(ProprietorsKey) == AsText(Present(row, ProprietorsKey))
    ensures DescribesProprietors(row, ProprietorList(row))
  {
    AssembleDescribes(row);
    NameIndicesNonEmpty(row);
    ScanOut(row, row.OwnKeys(), ProprietorsKey);
    ProprietorsKeyPlain();
    EnumerationOrderPermutes(row.keys);
  }

  /**
   * The output's keys in insertion order: the plain keys with present cells,
   * in the order the loop visits them, then `proprietors` if it was added.
   */
  lemma TransformKeys(row: Row)
    requires row.Valid()
    ensures Transform(row).Valid()
    ensures Transform(row).keys == PlainKeys(row, row.OwnKeys()) +
      if HasNameCell(row) && ProprietorsKey !in PlainKeys(row, row.OwnKeys()) then [ProprietorsKey] else []
  {
    EnumerationOrderPermutes(row.keys);
    ScanOutKeys(row, row.OwnKeys());
    AssembleDescribes(row);
    NameIndicesNonEmpty(row);
  }

  /** Two rows with the same keys whose cells agree wherever present give the same record. */
  lemma TransformCongruent(row1: Row, row2: Row)
    requires row1.keys == row2.keys
    requires forall k :: Present(row1, k) == Present(row2, k)
    ensures Transform(row1) == Transform(row2)
  {
    ScanCongruent(row1, row2, row1.OwnKeys());
  }

  /** A `null`, `undefined` or empty cell counts as no cell at all: the three give the same record. */
  lemma EmptyCellsIgnored(row: Row, key: string, cell: Cell)
    requires row.Valid() && key in row.keys
    requires Present(row, key) == None
    requires cell == None || cell == Some("")
    ensures Transform(row.Put(key, cell)) == Transform(row)
  {
    var row' := row.Put(key, cell);
    assert forall k :: Present(row', k) == Present(row, k);
    TransformCongruent(row', row);
  }
}
