/**
 * The row transformer, `processRow`: one parsed CSV row in, one nested
 * record out.  Non-empty cells whose column matches one of the six indexed
 * patterns are grouped by index; every other non-empty cell is copied
 * through; one proprietor is built per index that has a name.
 */
module RowTransform {
  import opened Wrappers
  import opened JsObjects
  import opened ColumnPatterns

  /** A cell of a parsed row; `None` stands for `null` or `undefined`. */
  type Cell = Option<string>

  /** A parsed row: column name to cell. */
  type Row = JsObject<Cell>

  /** Optional fields are `None` where the source leaves them `undefined`, which JSON output omits. */
  datatype Proprietor = Proprietor(
    name: string,
    category: Option<string>,
    companiesHouseNumber: Option<string>,
    address1: Option<string>,
    address2: Option<string>,
    address3: Option<string>)

  /** A field of a processed record: a copied cell, or the list of proprietors. */
  datatype Value = Text(text: string) | Proprietors(list: seq<Proprietor>)

  type Record = JsObject<Value>

  const ProprietorsKey: string := "proprietors"

  /** `row[key]` when it is neither `null`, `undefined` nor `''`. */
  function Present(row: Row, key: string): Option<string> {
    match row.Get(key)
    case Some(Some(v)) => if v != "" then Some(v) else None
    case _ => None
  }

  /** The six index-keyed dictionaries and the output record, as the first loop fills them. */
  datatype Groups = Groups(
    names: JsObject<string>,
    categories: JsObject<string>,
    registrations: JsObject<string>,
    addresses1: JsObject<string>,
    addresses2: JsObject<string>,
    addresses3: JsObject<string>,
    out: Record)
  {
    predicate Valid() {
      && names.Valid() && categories.Valid() && registrations.Valid()
      && addresses1.Valid() && addresses2.Valid() && addresses3.Valid()
      && out.Valid()
    }

    /** The dictionary that collects family `f`. */
    function Dict(f: Family): JsObject<string> {
      match f
      case Name => names
      case Category => categories
      case Registration => registrations
      case Address1 => addresses1
      case Address2 => addresses2
      case Address3 => addresses3
    }

    /** The groups with the dictionary of family `f` replaced by `d`. */
    function With(f: Family, d: JsObject<string>): (r: Groups)
      ensures r.Dict(f) == d && r.out == out
      ensures forall f' :: f' != f ==> r.Dict(f') == Dict(f')
    {
      match f
      case Name => this.(names := d)
      case Category => this.(categories := d)
      case Registration => this.(registrations := d)
      case Address1 => this.(addresses1 := d)
      case Address2 => this.(addresses2 := d)
      case Address3 => this.(addresses3 := d)
    }
  }

  function NoGroups(): (g: Groups)
    ensures g.Valid()
  {
    Groups(Empty(), Empty(), Empty(), Empty(), Empty(), Empty(), Empty())
  }

  /** Files the cell `cell` of the column `key`, classified as `column`. */
  function File(g: Groups, key: string, column: Column, cell: Option<string>): (r: Groups)
    requires g.Valid()
    ensures r.Valid()
  {
    match cell
    case None => g
    case Some(v) =>
      match column
      case Indexed(f, i) =>
        assert g.Dict(f).Valid();
        g.With(f, g.Dict(f).Put(i, v))
      case Plain => g.(out := g.out.Put(key, Text(v)))
  }

  /** One turn of the first loop: file the cell under `key`, if present. */
  function Accept(g: Groups, row: Row, key: string): (r: Groups)
    requires g.Valid()
    ensures r.Valid()
  {
    File(g, key, Classify(key), Present(row, key))
  }

  /** The first loop run over `keys`. */
  function Scan(row: Row, keys: seq<string>): (g: Groups)
    ensures g.Valid()
    decreases |keys|
  {
    if keys == [] then NoGroups()
    else Accept(Scan(row, keys[..|keys| - 1]), row, keys[|keys| - 1])
  }

  /** The proprietor the second loop builds for a name index. */
  function ProprietorAt(g: Groups, index: string): Proprietor
    requires index in g.names.values
  {
    Proprietor(
      g.names.values[index],
      g.categories.Get(index),
      g.registrations.Get(index),
      g.addresses1.Get(index),
      g.addresses2.Get(index),
      g.addresses3.Get(index))
  }

  /** The second loop run over `indices`. */
  function Assemble(g: Groups, indices: seq<string>): seq<Proprietor>
    requires forall i :: i in indices ==> i in g.names.values
    decreases |indices|
  {
    if indices == [] then []
    else
      var last := indices[|indices| - 1];
      Assemble(g, indices[..|indices| - 1]) + [ProprietorAt(g, last)]
  }

  /** The proprietors the second loop builds for `row`. */
  function ProprietorList(row: Row): seq<Proprietor> {
    var g := Scan(row, row.OwnKeys());
    EnumerationOrderPermutes(g.names.keys);
    Assemble(g, g.names.OwnKeys())
  }

  /** What `processRow` returns for `row`. */
  function Transform(row: Row): Record {
    var out := Scan(row, row.OwnKeys()).out;
    var proprietors := ProprietorList(row);
    if |proprietors| > 0 then out.Put(ProprietorsKey, Proprietors(proprietors)) else out
  }

  /** `processRow`: the first loop files the cells, the second builds the proprietors. */
  method ProcessRow(row: Row) returns (processed: Record)
    ensures processed == Transform(row)
  {
    var g := FileCells(row, row.OwnKeys());
    var indices := g.names.OwnKeys();
    EnumerationOrderPermutes(g.names.keys);
    var proprietors := AssembleProprietors(g, indices);
    processed := g.out;
    if |proprietors| > 0 {
      processed := processed.Put(ProprietorsKey, Proprietors(proprietors));
    }
  }

  /**
   * The first loop of `processRow` over the keys in `keys`: every present
   * cell goes to the dictionary of the first pattern its column matches,
   * or, matching none, into the output record.
   */
  method FileCells(row: Row, keys: seq<string>) returns (g: Groups)
    ensures g == Scan(row, keys)
  {
    g := NoGroups();
    for i := 0 to |keys|
      invariant g == Scan(row, keys[..i])
    {
      var key := keys[i];
      assert keys[..i + 1][..i] == keys[..i];
      assert Scan(row, keys[..i + 1]) == Accept(g, row, key);
      var cell := row.Get(key);
      if cell.Some? && cell.value.Some? && cell.value.value != "" {
        assert Present(row, key) == cell.value;
        g := FileCell(g, key, cell.value.value);
      }
    }
    assert keys[..|keys|] == keys;
  }

  /** Files one present cell where the `if ... else if` chain sends it, as `File` does for its classification. */
  method FileCell(g: Groups, key: string, value: string) returns (r: Groups)
    requires g.Valid()
    ensures r == File(g, key, Classify(key), Some(value))
  {
    match Classify(key)
    case Indexed(family, index) =>
      assert g.Dict(family).Valid();
      r := g.With(family, g.Dict(family).Put(index, value));
    case Plain =>
      r := g.(out := g.out.Put(key, Text(value)));
  }

  /** The second loop of `processRow`: one proprietor per name index, in the order given. */
  method AssembleProprietors(g: Groups, indices: seq<string>) returns (proprietors: seq<Proprietor>)
    requires forall i :: i in indices ==> i in g.names.values
    ensures proprietors == Assemble(g, indices)
  {
    proprietors := [];
    for j := 0 to |indices|
      invariant proprietors == Assemble(g, indices[..j])
    {
      var index := indices[j];
      var proprietor := Proprietor(
        g.names.values[index],
        g.categories.Get(index),
        g.registrations.Get(index),
        g.addresses1.Get(index),
        g.addresses2.Get(index),
        g.addresses3.Get(index));
      assert indices[..j + 1][..j] == indices[..j];
      proprietors := proprietors + [proprietor];
    }
    assert indices[..|indices|] == indices;
  }
}
