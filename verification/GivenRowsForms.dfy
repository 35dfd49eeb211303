/**
 The two client forms of given rows, by index and by name. Each drives the builder and
 stops at its first error; both are proved against a description of the table they make.
 */
module GivenRowsForms {
  import opened Wrappers
  import opened GivenRows

  /** A dictionary in the order its entries are enumerated. */
  type Dictionary = seq<(string, Option<Concept>)>

  predicate DistinctKeys(d: Dictionary) {
    forall i, j | 0 <= i < j < |d| :: d[i].0 != d[j].0
  }

  // ----- the tables -----

  predicate GoodRow(width: nat, row: seq<Option<Concept>>) {
    |row| <= width && forall i | 0 <= i < |row| :: !IsType(row[i])
  }

  /** The error of the first cell that cannot be set: it holds a type, or lies outside the header. */
  ghost predicate RowFault(width: nat, row: seq<Option<Concept>>, e: Error) {
    exists i: nat :: i < |row| && GoodRow(width, row[..i])
                     && if IsType(row[i]) then e == ReceivedType else i == width && e == IndexOutOfBounds(i)
  }

  /** A short row is filled up with empty entries. */
  function IndexRow(width: nat, row: seq<Option<Concept>>): Row
    requires GoodRow(width, row)
  {
    seq(width, i requires 0 <= i < width => if i < |row| then EntryOf(row[i]) else Empty)
  }

  predicate FirstBadRow(width: nat, rows: seq<seq<Option<Concept>>>, k: nat) {
    k < |rows| && !GoodRow(width, rows[k]) && forall i | 0 <= i < k :: GoodRow(width, rows[i])
  }

  function IndexRows(width: nat, rows: seq<seq<Option<Concept>>>): seq<Row>
    requires forall i | 0 <= i < |rows| :: GoodRow(width, rows[i])
  {
    seq(|rows|, i requires 0 <= i < |rows| => IndexRow(width, rows[i]))
  }

  predicate GoodDictionary(d: Dictionary) {
    forall i | 0 <= i < |d| :: !IsType(d[i].1)
  }

  /** What a dictionary binds a variable to; nothing for a variable it lacks. */
  function Lookup(d: Dictionary, variable: string): Option<Concept> {
    if d == [] then None
    else if d[|d| - 1].0 == variable then d[|d| - 1].1 else Lookup(d[..|d| - 1], variable)
  }

  lemma {:induction false} LookupGood(d: Dictionary, variable: string)
    requires GoodDictionary(d)
    ensures !IsType(Lookup(d, variable))
  {
    if d != [] && d[|d| - 1].0 != variable {
      LookupGood(d[..|d| - 1], variable);
    }
  }

  function NameRow(header: seq<string>, d: Dictionary): (r: Row)
    requires GoodDictionary(d)
    ensures |r| == |header|
  {
    seq(|header|, i requires 0 <= i < |header| => LookupGood(d, header[i]); EntryOf(Lookup(d, header[i])))
  }

  function NameRows(header: seq<string>, ds: seq<Dictionary>): seq<Row>
    requires forall i | 0 <= i < |ds| :: GoodDictionary(ds[i])
  {
    seq(|ds|, i requires 0 <= i < |ds| => NameRow(header, ds[i]))
  }

  function KeysOf(d: Dictionary): seq<string> {
    seq(|d|, i requires 0 <= i < |d| => d[i].0)
  }

  /** The keys of all dictionaries, one after another. */
  function AllKeys(ds: seq<Dictionary>): seq<string> {
    if ds == [] then [] else AllKeys(ds[..|ds| - 1]) + KeysOf(ds[|ds| - 1])
  }

  /** Each key once, where it is first seen. */
  function InFirstSeenOrder(keys: seq<string>): seq<string> {
    if keys == [] then []
    else
      var seen, key := InFirstSeenOrder(keys[..|keys| - 1]), keys[|keys| - 1];
      if key in seen then seen else seen + [key]
  }

  function Variables(ds: seq<Dictionary>): seq<string> {
    InFirstSeenOrder(AllKeys(ds))
  }

  predicate Distinct(header: seq<string>) {
    forall i, j | 0 <= i < j < |header| :: header[i] != header[j]
  }

  /** Index of the first occurrence of a key that occurs. */
  function FirstSeen(keys: seq<string>, key: string): (k: nat)
    requires key in keys
    ensures k < |keys| && keys[k] == key && forall i | 0 <= i < k :: keys[i] != key
  {
    if keys[0] == key then 0 else 1 + FirstSeen(keys[1..], key)
  }

  /** Exactly the keys that occur, each once, in the order they are first seen. */
  lemma {:induction false} FirstSeenOrder(keys: seq<string>)
    ensures var vs := InFirstSeenOrder(keys);
            && Distinct(vs) && (forall v :: v in vs <==> v in keys)
            && forall i, j | 0 <= i < j < |vs| :: FirstSeen(keys, vs[i]) < FirstSeen(keys, vs[j])
  {
    if keys != [] {
      var before, last := keys[..|keys| - 1], keys[|keys| - 1];
      FirstSeenOrder(before);
      forall v | v in before ensures v in keys && FirstSeen(keys, v) == FirstSeen(before, v) {
        assert keys[FirstSeen(before, v)] == v;
      }
      var vs := InFirstSeenOrder(keys);
      forall i, j | 0 <= i < j < |vs| ensures FirstSeen(keys, vs[i]) < FirstSeen(keys, vs[j]) {
        var seen := InFirstSeenOrder(before);
        assert vs[i] == seen[i];
        if j < |seen| {
          assert vs[j] == seen[j];
        }
      }
    }
  }

  lemma {:induction false} AllKeysLaw(ds: seq<Dictionary>, k: nat)
    requires k < |ds|
    ensures forall i | 0 <= i < |ds[k]| :: ds[k][i].0 in AllKeys(ds)
  {
    var before := ds[..|ds| - 1];
    if k < |before| {
      AllKeysLaw(before, k);
    } else {
      forall i | 0 <= i < |ds[k]| ensures ds[k][i].0 in AllKeys(ds) {
        assert KeysOf(ds[k])[i] == ds[k][i].0;
      }
    }
  }

  lemma KeysAreVariables(ds: seq<Dictionary>, k: nat)
    requires k < |ds|
    ensures forall i | 0 <= i < |ds[k]| :: ds[k][i].0 in Variables(ds)
  {
    AllKeysLaw(ds, k);
    FirstSeenOrder(AllKeys(ds));
  }

  /** The header builder: one variable pushed after another. */
  method BuildHeader(variables: seq<string>) returns (header: seq<string>)
    ensures header == variables
  {
    header := [];
    for i := 0 to |variables|
      invariant header == variables[..i]
    {
      header := header + [variables[i]];
    }
  }

  // ----- by index -----

  method OfRows(variables: seq<string>, rows: seq<seq<Option<Concept>>>) returns (r: Result<Table, Error>)
    ensures r.Ok? <==> forall i | 0 <= i < |rows| :: GoodRow(|variables|, rows[i])
    ensures r.Err? ==> exists k: nat :: FirstBadRow(|variables|, rows, k) && RowFault(|variables|, rows[k], r.error)
    ensures r.Ok? ==> r.value == Table(variables, IndexRows(|variables|, rows))
  {
    var header := BuildHeader(variables);
    var builder := new GivenRowsBuilder(header);
    for k := 0 to |rows|
      invariant fresh(builder) && builder.header == variables && builder.activeRow == None
      invariant forall i | 0 <= i < k :: GoodRow(|variables|, rows[i])
      invariant builder.rows == IndexRows(|variables|, rows[..k])
    {
      var error := AddRow(builder, rows[k]);
      if error.Some? {
        assert FirstBadRow(|variables|, rows, k);
        return Err(error.value);
      }
      assert IndexRows(|variables|, rows[..k + 1]) == IndexRows(|variables|, rows[..k]) + [IndexRow(|variables|, rows[k])];
    }
    assert rows[..|rows|] == rows;
    r := builder.Finish();
  }

  method AddRow(builder: GivenRowsBuilder, row: seq<Option<Concept>>) returns (error: Option<Error>)
    modifies builder
    ensures error.None? <==> GoodRow(|builder.header|, row)
    ensures error.Some? ==> RowFault(|builder.header|, row, error.value)
    ensures error.None? ==> builder.activeRow == None
                            && builder.rows == old(builder.rows) + [IndexRow(|builder.header|, row)]
  {
    builder.StartNewRow();
    ghost var width := |builder.header|;
    assert IndexRow(width, row[..0]) == EmptyRow(builder.header);
    for i := 0 to |row|
      invariant GoodRow(width, row[..i]) && builder.rows == old(builder.rows)
      invariant builder.activeRow == Some(IndexRow(width, row[..i]))
    {
      error := builder.SetIndex(i, row[i]);
      assert row[..i + 1] == row[..i] + [row[i]];
      if error.Some? {
        assert row[..i + 1][i] == row[i];
        return;
      }
      assert GoodRow(width, row[..i + 1]);
      assert IndexRow(width, row[..i + 1]) == IndexRow(width, row[..i])[i := EntryOf(row[i])];
    }
    assert row[..|row|] == row;
    error := builder.CommitRow();
  }

  // ----- by name -----

  method OfDictionaries(ds: seq<Dictionary>) returns (r: Result<Table, Error>)
    requires forall k | 0 <= k < |ds| :: DistinctKeys(ds[k])
    ensures r.Ok? <==> forall k | 0 <= k < |ds| :: GoodDictionary(ds[k])
    ensures r.Err? ==> r.error == ReceivedType
    ensures r.Ok? ==> r.value == Table(Variables(ds), NameRows(Variables(ds), ds))
  {
    var header := BuildHeader(Variables(ds));
    FirstSeenOrder(AllKeys(ds));
    var builder := new GivenRowsBuilder(header);
    for k := 0 to |ds|
      invariant fresh(builder) && builder.header == header && builder.activeRow == None
      invariant forall i | 0 <= i < k :: GoodDictionary(ds[i])
      invariant builder.rows == NameRows(header, ds[..k])
    {
      KeysAreVariables(ds, k);
      var error := AddDictionary(builder, ds[k]);
      if error.Some? {
        return Err(error.value);
      }
      assert NameRows(header, ds[..k + 1]) == NameRows(header, ds[..k]) + [NameRow(header, ds[k])];
    }
    assert ds[..|ds|] == ds;
    r := builder.Finish();
  }

  method AddDictionary(builder: GivenRowsBuilder, d: Dictionary) returns (error: Option<Error>)
    requires Distinct(builder.header) && forall i | 0 <= i < |d| :: d[i].0 in builder.header
    modifies builder
    ensures error.None? <==> GoodDictionary(d)
    ensures error.Some? ==> error.value == ReceivedType
    ensures error.None? ==> builder.activeRow == None
                            && builder.rows == old(builder.rows) + [NameRow(builder.header, d)]
  {
    builder.StartNewRow();
    ghost var header := builder.header;
    assert NameRow(header, d[..0]) == EmptyRow(header);
    for i := 0 to |d|
      invariant GoodDictionary(d[..i]) && builder.rows == old(builder.rows)
      invariant builder.activeRow == Some(NameRow(header, d[..i]))
    {
      error := builder.SetVariable(d[i].0, d[i].1);
      assert d[..i + 1] == d[..i] + [d[i]];
      if error.Some? {
        assert d[..i + 1][i] == d[i];
        return;
      }
      NameRowAdds(header, d[..i], d[i]);
    }
    assert d[..|d|] == d;
    error := builder.CommitRow();
  }

  /** Binding one more variable of a header without repetitions. */
  lemma NameRowAdds(header: seq<string>, d: Dictionary, binding: (string, Option<Concept>))
    requires GoodDictionary(d) && !IsType(binding.1) && Distinct(header) && binding.0 in header
    ensures GoodDictionary(d + [binding])
    ensures var k := Position(header, binding.0);
            k.Some? && NameRow(header, d + [binding]) == NameRow(header, d)[k.value := EntryOf(binding.1)]
  {
  }

  // ----- one table -----

  /** The rows of the index form that say what the dictionaries say, with nothing for missing keys. */
  function AsRows(ds: seq<Dictionary>): seq<seq<Option<Concept>>> {
    var header := Variables(ds);
    seq(|ds|, k requires 0 <= k < |ds| => RowOf(header, ds[k]))
  }

  function RowOf(header: seq<string>, d: Dictionary): seq<Option<Concept>> {
    seq(|header|, i requires 0 <= i < |header| => Lookup(d, header[i]))
  }

  lemma {:induction false} LookupFinds(d: Dictionary, i: nat)
    requires DistinctKeys(d) && i < |d|
    ensures Lookup(d, d[i].0) == d[i].1
    decreases |d|
  {
    if i < |d| - 1 {
      LookupFinds(d[..|d| - 1], i);
    }
  }

  lemma GoodIff(header: seq<string>, d: Dictionary)
    requires DistinctKeys(d) && forall i | 0 <= i < |d| :: d[i].0 in header
    ensures GoodRow(|header|, RowOf(header, d)) <==> GoodDictionary(d)
  {
    if GoodDictionary(d) {
      forall i | 0 <= i < |header| ensures !IsType(RowOf(header, d)[i]) {
        LookupGood(d, header[i]);
      }
    } else {
      var i :| 0 <= i < |d| && IsType(d[i].1);
      LookupFinds(d, i);
      var k :| 0 <= k < |header| && header[k] == d[i].0;
      assert IsType(RowOf(header, d)[k]);
    }
  }

  /** Both forms refuse the same input, and otherwise make the same table. */
  lemma TwoForms(ds: seq<Dictionary>)
    requires forall k | 0 <= k < |ds| :: DistinctKeys(ds[k])
    ensures var header, rows := Variables(ds), AsRows(ds);
            && ((forall k | 0 <= k < |rows| :: GoodRow(|header|, rows[k])) <==>
                (forall k | 0 <= k < |ds| :: GoodDictionary(ds[k])))
            && ((forall k | 0 <= k < |ds| :: GoodDictionary(ds[k])) ==>
                (forall k | 0 <= k < |rows| :: GoodRow(|header|, rows[k]))
                && IndexRows(|header|, rows) == NameRows(header, ds))
  {
    var header, rows := Variables(ds), AsRows(ds);
    forall k | 0 <= k < |ds| ensures rows[k] == RowOf(header, ds[k])
                             ensures GoodRow(|header|, rows[k]) <==> GoodDictionary(ds[k])
    {
      KeysAreVariables(ds, k);
      GoodIff(header, ds[k]);
    }
    if forall k | 0 <= k < |ds| :: GoodDictionary(ds[k]) {
      forall k | 0 <= k < |ds| ensures IndexRow(|header|, rows[k]) == NameRow(header, ds[k]) {
      }
    }
  }
}
