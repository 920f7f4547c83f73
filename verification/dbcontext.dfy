/**
 * `AddOrUpdate` of the context as a whole: build the insert statement from the entity's
 * table and (column, value) pairs, then route it through the batching state machine.
 */
module DbContext {
  import opened Results
  import opened CqlText
  import opened Batching
  import opened Statements

  /** `AddOrUpdate(entity)`, the entity given by its table name and relevant columns. */
  function AddOrUpdate<V>(c: Context<Statement<V>>, table: string, columns: seq<Column<V>>, exec: ExecResult)
    : (r: Step<Statement<V>>)
    ensures c.useBatching ==>
      Delivered(r.ctx.log) + r.ctx.pending == Delivered(c.log) + c.pending + [CreateAddStatement(table, columns)]
    ensures !c.useBatching ==> r.ctx.pending == c.pending && r.ctx.count == c.count
    ensures !c.useBatching && exec == Succeeded ==>
      Delivered(r.ctx.log) == Delivered(c.log) + [CreateAddStatement(table, columns)]
    ensures r.threw <==> exec == Threw && |r.ctx.log| == |c.log| + 1
  {
    Add(c, CreateAddStatement(table, columns), exec)
  }

  /**
   * The statement an add queues or executes is the insert for exactly that table and those
   * columns, with one bound value per placeholder.
   */
  lemma AddOrUpdateSendsInsert<V>(c: Context<Statement<V>>, table: string, columns: seq<Column<V>>, exec: ExecResult)
    requires c.useBatching && IsIdentifier(table) && ValidColumns(columns)
    ensures var r := AddOrUpdate(c, table, columns, exec).ctx;
      var sent := Delivered(r.log) + r.pending;
      && |sent| > 0
      && ParseInsert(sent[|sent| - 1].text) == Some(InsertShape(table, ColumnNames(columns), |columns|))
      && FullyBound(sent[|sent| - 1])
      && |sent[|sent| - 1].values| == |columns|
      && forall i :: 0 <= i < |columns| ==> sent[|sent| - 1].values[i] == columns[i].value
  {
    InsertRoundTrip(table, columns);
    InsertFullyBound(table, columns);
  }
}
