/**
 * The statement text the context composes: the raw insert built by `CreateAddStatement`,
 * the aggregate queries of `Average`/`Sum`/`Min`/`Max` (and their async twins, which build
 * the same text), and the `select *` of `Select`/`SelectAsync`. Each builder is paired with
 * a reader that takes the text apart again, and the round trip is proved.
 *
 * The table name, the (column, value) pairs and the compiled predicate are inputs: they
 * come from reflection and from the predicate compiler, which are not part of this model.
 */
module Statements {
  import opened Results
  import opened CqlText

  /** One relevant property of an entity: its mapped column name and its value. */
  datatype Column<V> = Column(name: string, value: V)

  /** A statement: text with positional `?` placeholders, and the values bound to them. */
  datatype Statement<V> = Statement(text: string, values: seq<V>)

  /** The compiled predicate: a where-clause with placeholders, and its values in order. */
  datatype CompiledPredicate<V> = CompiledPredicate(clause: string, values: seq<V>)

  /** The predicate compiler's promise: one placeholder per bound value. */
  predicate WellFormed<V>(q: CompiledPredicate<V>)
  {
    Occurrences('?', q.clause) == |q.values|
  }

  /** A statement that binds exactly as many values as its text has placeholders. */
  predicate FullyBound<V>(st: Statement<V>)
  {
    Occurrences('?', st.text) == |st.values|
  }

  function ColumnNames<V>(columns: seq<Column<V>>): (names: seq<string>)
    ensures |names| == |columns|
    ensures forall i :: 0 <= i < |columns| ==> names[i] == columns[i].name
  {
    seq(|columns|, i requires 0 <= i < |columns| => columns[i].name)
  }

  predicate ValidColumns<V>(columns: seq<Column<V>>)
  {
    forall i :: 0 <= i < |columns| ==> IsIdentifier(columns[i].name)
  }

  // ---------------------------------------------------------------------------
  // Insert
  // ---------------------------------------------------------------------------

  /**
   * `CreateAddStatement`: `insert into <table>(<c1>,...,<cn>) values (?,...,?)`, binding the
   * columns' values in column order.
   */
  function CreateAddStatement<V>(table: string, columns: seq<Column<V>>): (st: Statement<V>)
    ensures |st.values| == |columns|
    ensures forall i :: 0 <= i < |columns| ==> st.values[i] == columns[i].value
  {
    var text := "insert into " + table + "(" + Join(",", ColumnNames(columns)) + ValuesList(|columns|);
    Statement(text, seq(|columns|, i requires 0 <= i < |columns| => columns[i].value))
  }

  /** The `) values (?,...,?)` that closes the column list of an insert with `n` columns. */
  function ValuesList(n: nat): string
  {
    ") values (" + Join(",", Placeholders(n)) + ")"
  }

  /** What an insert's text names: table, columns, and how many placeholders it has. */
  datatype InsertShape = InsertShape(table: string, columns: seq<string>, placeholders: nat)

  /** Reads back the text of an insert statement. */
  function ParseInsert(text: string): Option<InsertShape>
  {
    match StripPrefix(text, "insert into ")
    case None => None
    case Some(rest) => ParseInsertTarget(rest)
  }

  /** Reads `<table>(<c1>,...,<cn>) values (<marks>)`. */
  function ParseInsertTarget(s: string): Option<InsertShape>
  {
    match SplitAt(s, '(')
    case None => None
    case Some((table, r)) =>
      match ParseInsertLists(r[1..])
      case None => None
      case Some((columns, n)) => Some(InsertShape(table, columns, n))
  }

  /** Reads `<c1>,...,<cn>) values (<marks>)`. */
  function ParseInsertLists(s: string): Option<(seq<string>, nat)>
  {
    match SplitAt(s, ')')
    case None => None
    case Some((cols, r)) =>
      match StripPrefix(r, ") values (")
      case None => None
      case Some(marks) =>
        match ParseMarks(marks)
        case None => None
        case Some(n) => Some((Split(cols, ','), n))
  }

  /** Reads `?,...,?)`, giving the number of placeholders. */
  function ParseMarks(s: string): Option<nat>
  {
    if |s| > 0 && s[|s| - 1] == ')' then
      var marks := Split(s[..|s| - 1], ',');
      if forall i :: 0 <= i < |marks| ==> marks[i] == "?" then Some(|marks|) else None
    else None
  }

  lemma MarksRoundTrip(n: nat)
    ensures ParseMarks(Join(",", Placeholders(n)) + ")") == Some(n)
  {
    var Q := Join(",", Placeholders(n));
    assert (Q + ")")[..|Q + ")"| - 1] == Q;
    SplitJoin(Placeholders(n), ',');
  }

  /** Identifier names joined by commas split back into the same names. */
  lemma NamesRoundTrip(names: seq<string>)
    requires forall i :: 0 <= i < |names| ==> IsIdentifier(names[i])
    ensures Split(Join(",", names), ',') == names
    ensures ')' !in Join(",", names) && '?' !in Join(",", names)
  {
    forall i | 0 <= i < |names| ensures names[i] != "" && ',' !in names[i] && ')' !in names[i] && '?' !in names[i] {
      IdentifierExcludes(names[i], ',');
      IdentifierExcludes(names[i], ')');
      IdentifierExcludes(names[i], '?');
    }
    NotInJoin(')', ",", names);
    NotInJoin('?', ",", names);
    SplitJoin(names, ',');
  }

  lemma ListsRoundTrip(names: seq<string>, n: nat)
    requires forall i :: 0 <= i < |names| ==> IsIdentifier(names[i])
    ensures ParseInsertLists(Join(",", names) + ValuesList(n)) == Some((names, n))
  {
    var J := Join(",", names);
    var M := Join(",", Placeholders(n)) + ")";
    var tail := ValuesList(n);
    assert tail == ") values (" + M;
    NamesRoundTrip(names);
    SplitAtPrefix(J, ')', tail);
    assert StripPrefix(tail, ") values (") == Some(M);
    MarksRoundTrip(n);
  }

  /**
   * The insert text names the table, then exactly the columns in order, then one
   * placeholder per column.
   */
  lemma InsertRoundTrip<V>(table: string, columns: seq<Column<V>>)
    requires IsIdentifier(table) && ValidColumns(columns)
    ensures ParseInsert(CreateAddStatement(table, columns).text)
      == Some(InsertShape(table, ColumnNames(columns), |columns|))
  {
    var names := ColumnNames(columns);
    var lists := Join(",", names) + ValuesList(|columns|);
    assert CreateAddStatement(table, columns).text == "insert into " + (table + ("(" + lists));
    ListsRoundTrip(names, |columns|);
    TargetRoundTrip(table, lists);
  }

  /** The table name is read back up to the opening parenthesis of the column list. */
  lemma TargetRoundTrip(table: string, lists: string)
    requires IsIdentifier(table) && ParseInsertLists(lists).Some?
    ensures ParseInsertTarget(table + ("(" + lists))
         == Some(InsertShape(table, ParseInsertLists(lists).value.0, ParseInsertLists(lists).value.1))
  {
    var r := "(" + lists;
    IdentifierExcludes(table, '(');
    SplitAtPrefix(table, '(', r);
    assert r[1..] == lists;
  }

  /** An insert of identifier-named columns binds exactly one value per placeholder. */
  lemma InsertFullyBound<V>(table: string, columns: seq<Column<V>>)
    requires IsIdentifier(table) && ValidColumns(columns)
    ensures FullyBound(CreateAddStatement(table, columns))
  {
    var J := Join(",", ColumnNames(columns));
    var Q := Join(",", Placeholders(|columns|));
    var head := "insert into " + table + "(" + J + ") values (";
    assert ValuesList(|columns|) == ") values (" + (Q + ")");
    assert CreateAddStatement(table, columns).text == head + (Q + ")");
    IdentifierExcludes(table, '?');
    NamesRoundTrip(ColumnNames(columns));
    OccurrencesAbsent('?', head);
    OccurrencesAbsent('?', ")");
    OccurrencesAppend('?', head, Q + ")");
    OccurrencesAppend('?', Q, ")");
    PlaceholderCount(|columns|);
  }

  // ---------------------------------------------------------------------------
  // Aggregates
  // ---------------------------------------------------------------------------

  datatype Aggregate = Avg | Sum | Min | Max

  /** The CQL function each aggregate operation calls. */
  function FunctionName(a: Aggregate): string
  {
    match a
    case Avg => "avg"
    case Sum => "sum"
    case Min => "min"
    case Max => "max"
  }

  function AggregateNamed(name: string): (r: Option<Aggregate>)
    ensures r.Some? ==> FunctionName(r.value) == name
  {
    if name == "avg" then Some(Avg)
    else if name == "sum" then Some(Sum)
    else if name == "min" then Some(Min)
    else if name == "max" then Some(Max)
    else None
  }

  /**
   * The statement of `Average`/`Sum`/`Min`/`Max`:
   * `select <fn>(<column>) from <table> where <clause>`, bound with the predicate's values.
   */
  function AggregateStatement<V>(a: Aggregate, column: string, table: string, q: CompiledPredicate<V>)
    : (st: Statement<V>)
    ensures st.values == q.values
  {
    Statement("select " + FunctionName(a) + "(" + column + ") from " + Filtered(table, q.clause), q.values)
  }

  datatype AggregateShape = AggregateShape(fn: Aggregate, column: string, table: string, clause: string)

  /** Reads back the text of an aggregate query. */
  function ParseAggregate(text: string): Option<AggregateShape>
  {
    match StripPrefix(text, "select ")
    case None => None
    case Some(rest) =>
      match SplitAt(rest, '(')
      case None => None
      case Some((name, r)) =>
        match AggregateNamed(name)
        case None => None
        case Some(a) =>
          match ParseAggregateArgs(r[1..])
          case None => None
          case Some((column, table, clause)) => Some(AggregateShape(a, column, table, clause))
  }

  /** Reads `<column>) from <table> where <clause>`. */
  function ParseAggregateArgs(s: string): Option<(string, string, string)>
  {
    match SplitAt(s, ')')
    case None => None
    case Some((column, r)) =>
      match StripPrefix(r, ") from ")
      case None => None
      case Some(source) =>
        match ParseSource(source)
        case None => None
        case Some((table, clause)) => Some((column, table, clause))
  }

  /** `<table> where <clause>`, the source part of every filtered query. */
  function Filtered(table: string, clause: string): string
  {
    table + " where " + clause
  }

  /** Reads `<table> where <clause>`. */
  function ParseSource(s: string): Option<(string, string)>
  {
    match SplitAt(s, ' ')
    case None => None
    case Some((table, r)) =>
      match StripPrefix(r, " where ")
      case None => None
      case Some(clause) => Some((table, clause))
  }

  lemma SourceRoundTrip(table: string, clause: string)
    requires IsIdentifier(table)
    ensures ParseSource(Filtered(table, clause)) == Some((table, clause))
  {
    var t := " where " + clause;
    assert Filtered(table, clause) == table + t;
    IdentifierExcludes(table, ' ');
    SplitAtPrefix(table, ' ', t);
    assert StripPrefix(t, " where ") == Some(clause);
  }

  lemma FunctionNameRoundTrip(a: Aggregate)
    ensures AggregateNamed(FunctionName(a)) == Some(a)
    ensures '(' !in FunctionName(a) && '?' !in FunctionName(a)
  {
    match a
    case Avg => assert FunctionName(a) == ['a', 'v', 'g'];
    case Sum => assert FunctionName(a) == ['s', 'u', 'm'];
    case Min => assert FunctionName(a) == ['m', 'i', 'n'];
    case Max => assert FunctionName(a) == ['m', 'a', 'x'];
  }

  /**
   * The aggregate text is exactly `select <fn>(<column>) from <table> where <clause>`: it
   * reads back to the same function, column, table and clause.
   */
  lemma AggregateRoundTrip<V>(a: Aggregate, column: string, table: string, q: CompiledPredicate<V>)
    requires IsIdentifier(column) && IsIdentifier(table)
    ensures ParseAggregate(AggregateStatement(a, column, table, q).text)
      == Some(AggregateShape(a, column, table, q.clause))
  {
    var name := FunctionName(a);
    var args := column + ") from " + Filtered(table, q.clause);
    var text := AggregateStatement(a, column, table, q).text;
    assert text == "select " + (name + ("(" + args));
    assert StripPrefix(text, "select ") == Some(name + ("(" + args));
    FunctionNameRoundTrip(a);
    SplitAtPrefix(name, '(', "(" + args);
    assert ("(" + args)[1..] == args;
    ArgsRoundTrip(column, table, q.clause);
  }

  lemma ArgsRoundTrip(column: string, table: string, clause: string)
    requires IsIdentifier(column) && IsIdentifier(table)
    ensures ParseAggregateArgs(column + ") from " + Filtered(table, clause)) == Some((column, table, clause))
  {
    var source := Filtered(table, clause);
    var r := ") from " + source;
    assert column + ") from " + source == column + r;
    IdentifierExcludes(column, ')');
    SplitAtPrefix(column, ')', r);
    assert StripPrefix(r, ") from ") == Some(source);
    SourceRoundTrip(table, clause);
    assert ParseAggregateArgs(column + r) == Some((column, table, clause));
  }

  /** An aggregate over a well-formed predicate binds exactly one value per placeholder. */
  lemma AggregateFullyBound<V>(a: Aggregate, column: string, table: string, q: CompiledPredicate<V>)
    requires IsIdentifier(column) && IsIdentifier(table) && WellFormed(q)
    ensures FullyBound(AggregateStatement(a, column, table, q))
  {
    var head := "select " + FunctionName(a) + "(" + column + ") from " + table + " where ";
    assert Filtered(table, q.clause) == table + " where " + q.clause;
    assert AggregateStatement(a, column, table, q).text == head + q.clause;
    FunctionNameRoundTrip(a);
    IdentifierExcludes(column, '?');
    IdentifierExcludes(table, '?');
    OccurrencesAbsent('?', head);
    OccurrencesAppend('?', head, q.clause);
  }

  // ---------------------------------------------------------------------------
  // Select
  // ---------------------------------------------------------------------------

  function SelectText(table: string, clause: Option<string>): string
  {
    match clause
    case None => "select * from " + table
    case Some(w) => "select * from " + Filtered(table, w)
  }

  /**
   * The statement `SelectAsync` fetches: `select * from <table>`, with ` where <clause>`
   * when a predicate is given (`Select` always gives one). Only the text is passed to the
   * mapper, so no value is bound.
   */
  function SelectStatement<V>(table: string, filter: Option<CompiledPredicate<V>>): (st: Statement<V>)
    ensures st.values == []
  {
    Statement(SelectText(table, if filter.Some? then Some(filter.value.clause) else None), [])
  }

  datatype SelectShape = SelectShape(table: string, clause: Option<string>)

  /** Reads back the text of a `select *` query. */
  function ParseSelect(text: string): Option<SelectShape>
  {
    match StripPrefix(text, "select * from ")
    case None => None
    case Some(rest) =>
      if ' ' !in rest then Some(SelectShape(rest, None))
      else
        match ParseSource(rest)
        case None => None
        case Some((table, clause)) => Some(SelectShape(table, Some(clause)))
  }

  /** The select text reads back to its table, and to the predicate's clause exactly when one is given. */
  lemma SelectRoundTrip<V>(table: string, filter: Option<CompiledPredicate<V>>)
    requires IsIdentifier(table)
    ensures ParseSelect(SelectStatement(table, filter).text)
      == Some(SelectShape(table, if filter.Some? then Some(filter.value.clause) else None))
  {
    var text := SelectStatement(table, filter).text;
    IdentifierExcludes(table, ' ');
    match filter
    case None =>
      assert StripPrefix(text, "select * from ") == Some(table);
    case Some(q) =>
      var source := Filtered(table, q.clause);
      assert text == "select * from " + source;
      assert StripPrefix(text, "select * from ") == Some(source);
      assert source[|table|] == ' ';
      SourceRoundTrip(table, q.clause);
  }

  /**
   * As written, a select whose predicate binds any value sends text with that many
   * placeholders and no bound value, so it is never fully bound.
   */
  lemma SelectLeavesPlaceholdersUnbound<V>(table: string, q: CompiledPredicate<V>)
    requires IsIdentifier(table) && WellFormed(q) && |q.values| > 0
    ensures var st := SelectStatement(table, Some(q));
      Occurrences('?', st.text) == |q.values| && st.values == [] && !FullyBound(st)
  {
    IdentifierExcludes(table, '?');
    var head := "select * from " + table + " where ";
    assert SelectStatement(table, Some(q)).text == head + q.clause;
    OccurrencesAbsent('?', head);
    OccurrencesAppend('?', head, q.clause);
  }

  /** The select with the predicate's values bound, as the aggregate queries already do. */
  function BoundSelectStatement<V>(table: string, filter: Option<CompiledPredicate<V>>): (st: Statement<V>)
    ensures st.text == SelectStatement(table, filter).text
    ensures filter.Some? ==> st.values == filter.value.values
    ensures filter.None? ==> st.values == []
  {
    match filter
    case None => Statement(SelectText(table, None), [])
    case Some(q) => Statement(SelectText(table, Some(q.clause)), q.values)
  }

  /** The corrected select binds exactly one value per placeholder, with or without a predicate. */
  lemma BoundSelectFullyBound<V>(table: string, filter: Option<CompiledPredicate<V>>)
    requires IsIdentifier(table)
    requires filter.Some? ==> WellFormed(filter.value)
    ensures FullyBound(BoundSelectStatement(table, filter))
  {
    IdentifierExcludes(table, '?');
    var head := "select * from " + table;
    OccurrencesAbsent('?', head);
    match filter
    case None =>
    case Some(q) =>
      assert BoundSelectStatement(table, filter).text == head + " where " + q.clause;
      OccurrencesAbsent('?', head + " where ");
      OccurrencesAppend('?', head + " where ", q.clause);
  }
}
