/**
 Building the rows given to a query: a builder with at most one row under construction,
 driven by start, set and commit, and finished once.
 */
module GivenRows {
  import opened Wrappers

  datatype Kind = Entity | Relation | Attribute | ValueKind

  datatype Concept = Instance(kind: Kind, content: string) | Type(name: string)

  datatype Entry = Empty | Filled(kind: Kind, content: string)

  type Row = seq<Entry>

  datatype Error =
    | NoActiveRow
    | ActiveRowLeft
    | ReceivedType
    | UnknownVariable(variable: string)
    | IndexOutOfBounds(index: nat)
    | SizeMismatch

  datatype Table = Table(header: seq<string>, rows: seq<Row>)

  // ----- rows -----

  /** Position of a variable; of equal names the last counts, as in a hash map filled in order. */
  function Position(header: seq<string>, variable: string): (k: Option<nat>)
    ensures k.Some? ==> k.value < |header| && header[k.value] == variable
    ensures k.Some? ==> forall i | k.value < i < |header| :: header[i] != variable
    ensures k.None? ==> variable !in header
  {
    if header == [] then None
    else if header[|header| - 1] == variable then Some(|header| - 1)
    else Position(header[..|header| - 1], variable)
  }

  function EmptyRow(header: seq<string>): (r: Row)
    ensures |r| == |header| && forall i | 0 <= i < |r| :: r[i] == Empty
  {
    seq(|header|, _ => Empty)
  }

  /** No concept stands for the empty entry; a type is refused. */
  function ToEntry(concept: Option<Concept>): Result<Entry, Error> {
    match concept
    case None => Ok(Empty)
    case Some(Type(_)) => Err(ReceivedType)
    case Some(Instance(kind, content)) => Ok(Filled(kind, content))
  }

  function SetAt(row: Row, index: nat, entry: Entry): Result<Row, Error> {
    if index < |row| then Ok(row[index := entry]) else Err(IndexOutOfBounds(index))
  }

  function SetNamed(header: seq<string>, row: Row, variable: string, entry: Entry): Result<Row, Error> {
    match Position(header, variable)
    case None => Err(UnknownVariable(variable))
    case Some(k) => SetAt(row, k, entry)
  }

  // ----- the operations as steps -----

  datatype Op =
    | Start
    | SetIndexTo(index: nat, concept: Option<Concept>)
    | SetVariableTo(variable: string, concept: Option<Concept>)
    | Commit

  datatype Builder = Builder(rows: seq<Row>, active: Option<Row>)

  datatype Stepped = Stepped(builder: Builder, error: Option<Error>)

  /** The row after a set, which is refused for a type before its place is looked at. */
  function Place(header: seq<string>, row: Row, op: Op): Result<Row, Error>
    requires op.SetIndexTo? || op.SetVariableTo?
  {
    match ToEntry(op.concept)
    case Err(e) => Err(e)
    case Ok(entry) =>
      if op.SetIndexTo? then SetAt(row, op.index, entry) else SetNamed(header, row, op.variable, entry)
  }

  function Push(header: seq<string>, rows: seq<Row>, row: Row): Result<seq<Row>, Error> {
    if |row| == |header| then Ok(rows + [row]) else Err(SizeMismatch)
  }

  function Step(header: seq<string>, b: Builder, op: Op): Stepped {
    if op.Start? then Stepped(b.(active := Some(EmptyRow(header))), None)
    else if b.active.None? then Stepped(b, Some(NoActiveRow))
    else if op.Commit? then
      var pushed := Push(header, b.rows, b.active.value);
      if pushed.Ok? then Stepped(Builder(pushed.value, None), None) else Stepped(b.(active := None), Some(pushed.error))
    else
      var placed := Place(header, b.active.value, op);
      if placed.Ok? then Stepped(b.(active := Some(placed.value)), None) else Stepped(b, Some(placed.error))
  }

  function Run(header: seq<string>, ops: seq<Op>): Builder {
    if ops == [] then Builder([], None)
    else Step(header, Run(header, ops[..|ops| - 1]), ops[|ops| - 1]).builder
  }

  // ----- the builder object -----

  class GivenRowsBuilder {
    const header: seq<string>
    var rows: seq<Row>
    var activeRow: Option<Row>

    ghost function View(): Builder
      reads this
    {
      Builder(rows, activeRow)
    }

    constructor (header: seq<string>)
      ensures this.header == header && View() == Builder([], None)
    {
      this.header := header;
      rows := [];
      activeRow := None;
    }

    method StartNewRow()
      modifies this
      ensures Stepped(View(), None) == Step(header, old(View()), Start)
    {
      activeRow := Some(EmptyRow(header));
    }

    method SetIndex(index: nat, concept: Option<Concept>) returns (error: Option<Error>)
      modifies this`activeRow
      ensures Stepped(View(), error) == Step(header, old(View()), SetIndexTo(index, concept))
    {
      if activeRow.None? {
        return Some(NoActiveRow);
      }
      var entry := ToEntry(concept);
      if entry.Err? {
        return Some(entry.error);
      }
      var placed := SetAt(activeRow.value, index, entry.value);
      if placed.Err? {
        return Some(placed.error);
      }
      activeRow := Some(placed.value);
      return None;
    }

    method SetVariable(variable: string, concept: Option<Concept>) returns (error: Option<Error>)
      modifies this`activeRow
      ensures Stepped(View(), error) == Step(header, old(View()), SetVariableTo(variable, concept))
    {
      if activeRow.None? {
        return Some(NoActiveRow);
      }
      var entry := ToEntry(concept);
      if entry.Err? {
        return Some(entry.error);
      }
      var placed := SetNamed(header, activeRow.value, variable, entry.value);
      if placed.Err? {
        return Some(placed.error);
      }
      activeRow := Some(placed.value);
      return None;
    }

    method CommitRow() returns (error: Option<Error>)
      modifies this
      ensures Stepped(View(), error) == Step(header, old(View()), Commit)
    {
      var row := activeRow;
      activeRow := None;
      if row.None? {
        return Some(NoActiveRow);
      }
      var pushed := Push(header, rows, row.value);
      if pushed.Err? {
        return Some(pushed.error);
      }
      rows := pushed.value;
      return None;
    }

    method Finish() returns (r: Result<Table, Error>)
      ensures r == if activeRow.Some? then Err(ActiveRowLeft) else Ok(Table(header, rows))
    {
      if activeRow.Some? {
        return Err(ActiveRowLeft);
      }
      return Ok(Table(header, rows));
    }
  }

  // ----- what a run builds -----

  /** The start of the row under construction: the last start, unless a commit follows it. */
  function OpenStart(ops: seq<Op>): (k: Option<nat>)
    ensures k.Some? ==> k.value < |ops| && ops[k.value].Start?
    ensures k.Some? ==> forall i | k.value < i < |ops| :: !ops[i].Start? && !ops[i].Commit?
    ensures k.None? ==> forall i | 0 <= i < |ops| && ops[i].Start? :: exists j :: i < j < |ops| && ops[j].Commit?
  {
    if ops == [] || ops[|ops| - 1].Commit? then None
    else if ops[|ops| - 1].Start? then Some(|ops| - 1)
    else OpenStart(ops[..|ops| - 1])
  }

  /** The cell an operation writes, if it writes one. */
  function Target(header: seq<string>, op: Op): Option<nat> {
    if !(op.SetIndexTo? || op.SetVariableTo?) || IsType(op.concept) then None
    else if op.SetVariableTo? then Position(header, op.variable)
    else if op.index < |header| then Some(op.index) else None
  }

  predicate IsType(concept: Option<Concept>) {
    concept.Some? && concept.value.Type?
  }

  /** The entry that stands for a concept, or for none. */
  function EntryOf(concept: Option<Concept>): Entry
    requires !IsType(concept)
  {
    match concept
    case None => Empty
    case Some(Instance(kind, content)) => Filled(kind, content)
  }

  /** What the last write of a cell put there. */
  function LastWrite(header: seq<string>, ops: seq<Op>, cell: nat): Entry {
    if ops == [] then Empty
    else
      var op := ops[|ops| - 1];
      if Target(header, op) == Some(cell) then EntryOf(op.concept)
      else LastWrite(header, ops[..|ops| - 1], cell)
  }

  /** The row written by the given operations. */
  function Written(header: seq<string>, ops: seq<Op>): (r: Row)
    ensures |r| == |header|
  {
    seq(|header|, i requires 0 <= i < |header| => LastWrite(header, ops, i))
  }

  /** The rows committed, in order: each holds what was written since its start. */
  function Committed(header: seq<string>, ops: seq<Op>): seq<Row> {
    if ops == [] then []
    else
      var before := ops[..|ops| - 1];
      var start := OpenStart(before);
      Committed(header, before)
      + if ops[|ops| - 1].Commit? && start.Some? then [Written(header, before[start.value + 1..])] else []
  }

  lemma WriteOne(header: seq<string>, ops: seq<Op>, op: Op)
    requires op.SetIndexTo? || op.SetVariableTo?
    ensures Written(header, ops + [op])
            == var placed := Place(header, Written(header, ops), op);
               if placed.Ok? then placed.value else Written(header, ops)
  {
  }

  /** After any operations: the committed rows, and what the row under construction holds. */
  lemma {:induction false} RunLaw(header: seq<string>, ops: seq<Op>)
    ensures var start := OpenStart(ops);
            Run(header, ops) == Builder(Committed(header, ops),
                                        if start.None? then None else Some(Written(header, ops[start.value + 1..])))
  {
    if ops != [] {
      var before, op := ops[..|ops| - 1], ops[|ops| - 1];
      RunLaw(header, before);
      var start := OpenStart(before);
      if op.Start? {
        assert ops[|ops|..] == [];
        assert Written(header, []) == EmptyRow(header);
      } else if !op.Commit? && start.Some? {
        assert ops[start.value + 1..] == before[start.value + 1..] + [op];
        WriteOne(header, before[start.value + 1..], op);
      }
    }
  }

  /**
   What a set reports after any operations: the missing row before the type, and the type before a
   place outside the header. It reports nothing exactly when it writes.
   */
  lemma SetErrors(header: seq<string>, ops: seq<Op>, index: nat, variable: string, concept: Option<Concept>)
    ensures Step(header, Run(header, ops), SetIndexTo(index, concept)).error
            == if OpenStart(ops).None? then Some(NoActiveRow)
               else if IsType(concept) then Some(ReceivedType)
               else if index >= |header| then Some(IndexOutOfBounds(index)) else None
    ensures Step(header, Run(header, ops), SetVariableTo(variable, concept)).error
            == if OpenStart(ops).None? then Some(NoActiveRow)
               else if IsType(concept) then Some(ReceivedType)
               else if variable !in header then Some(UnknownVariable(variable)) else None
  {
    RunLaw(header, ops);
  }

  lemma {:induction false} CommittedWidth(header: seq<string>, ops: seq<Op>)
    ensures forall row | row in Committed(header, ops) :: |row| == |header|
  {
    if ops != [] {
      CommittedWidth(header, ops[..|ops| - 1]);
    }
  }

  /**
   A commit fails exactly when no row is under construction, and then changes nothing. Rows always
   have the width of the header, so no commit is ever refused for its size.
   */
  lemma CommitLaw(header: seq<string>, ops: seq<Op>)
    ensures var b := Run(header, ops);
            var stepped := Step(header, b, Commit);
            && (stepped.error.Some? <==> OpenStart(ops).None?)
            && (stepped.error.Some? ==> stepped == Stepped(b, Some(NoActiveRow)))
            && (forall row | row in b.rows :: |row| == |header|)
            && (b.active.Some? ==> |b.active.value| == |header|)
  {
    RunLaw(header, ops);
    CommittedWidth(header, ops);
  }
}
