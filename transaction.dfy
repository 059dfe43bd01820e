/**
 * The transaction builder that the commands append to, and what a command's
 * run leaves behind: the operations it appended and whether it completed or
 * raised an exception part way.
 */
module Transaction {
  import opened Notation
  import opened Schema

  /** The builder accumulates operations in call order; nothing is ever removed. */
  class TransactionBuilder {
    const schema: DatabaseSchema
    var operations: seq<Op>

    constructor (schema: DatabaseSchema)
      ensures this.schema == schema && operations == []
    {
      this.schema := schema;
      operations := [];
    }

    method Add(op: Op)
      modifies this
      ensures operations == old(operations) + [op]
    {
      operations := operations + [op];
    }
  }

  /** An exception that escapes a command. */
  datatype Failure =
    | SchemaVersionMismatch(table: string, column: string)
    | NullPointer

  datatype Outcome = Completed | Raised(failure: Failure)

  /** The operations a command appends, in order, and how it ends. */
  datatype Run = Run(ops: seq<Op>, outcome: Outcome)

  const Done := Run([], Completed)

  /** Running `a` and then, unless `a` raised, `b`. */
  function Then(a: Run, b: Run): Run {
    if a.outcome == Completed then Run(a.ops + b.ops, b.outcome) else a
  }

  lemma ThenAssociative(a: Run, b: Run, c: Run)
    ensures Then(Then(a, b), c) == Then(a, Then(b, c))
  {
    if a.outcome == Completed && b.outcome == Completed {
      assert (a.ops + b.ops) + c.ops == a.ops + (b.ops + c.ops);
    }
  }
}
