/**
 * Values and primitive operations of the OVSDB management protocol
 * (RFC 7047, sections 5.1 and 5.2), as a transaction builder collects them,
 * and the scoping rule for uuid-names within one transaction.
 */
module Notation {
  import opened Wrappers

  /** A row identifier: a concrete uuid, or a uuid-name standing for the row
      that an insert of the same transaction creates (section 5.1 of RFC 7047). */
  datatype Uuid = RealUuid(id: string) | NamedUuid(name: string)

  datatype Atom = AString(text: string) | AInteger(number: int) | AUuid(uuid: Uuid)

  /** An OVSDB datum: a single atom, a set of atoms or a map between atoms. */
  datatype Datum = Scalar(atom: Atom) | SetOf(elements: set<Atom>) | MapOf(pairs: map<Atom, Atom>)

  /** A row as an operation carries it: the columns that were set, each with its value.
      A column that was never set is absent. */
  type Row = map<string, Datum>

  /** The mutators of section 5.1 of RFC 7047: "+=", "-=", "*=", "/=", "%=", "insert", "delete". */
  datatype Mutator = Sum | Difference | Product | Quotient | Remainder | SetInsert | SetDelete

  /** The condition functions of section 5.1 of RFC 7047. */
  datatype Comparison = Less | LessOrEqual | Equal | NotEqual | GreaterOrEqual | Greater | Includes | Excludes

  datatype Condition = Condition(column: string, comparison: Comparison, value: Datum)

  datatype Mutation = Mutation(column: string, mutator: Mutator, value: Datum)

  /** The two operations the reconciliation commands emit: "insert", optionally
      under a uuid-name (section 5.2.1), and "mutate" (section 5.2.4). */
  datatype Op =
    | Insert(table: string, row: Row, uuidName: Option<string>)
    | Mutate(table: string, mutations: seq<Mutation>, conditions: seq<Condition>)

  /** The datum refers to the row that the uuid-name `name` stands for. */
  predicate Mentions(d: Datum, name: string) {
    match d
    case Scalar(a) => a == AUuid(NamedUuid(name))
    case SetOf(s) => AUuid(NamedUuid(name)) in s
    case MapOf(m) => AUuid(NamedUuid(name)) in m || exists k :: k in m && m[k] == AUuid(NamedUuid(name))
  }

  /** Some value carried by `op` refers to the uuid-name `name`. */
  predicate References(op: Op, name: string) {
    match op
    case Insert(_, row, _) => exists c :: c in row && Mentions(row[c], name)
    case Mutate(_, ms, cs) =>
      (exists k :: 0 <= k < |ms| && Mentions(ms[k].value, name)) ||
      (exists k :: 0 <= k < |cs| && Mentions(cs[k].value, name))
  }

  /** `op` is the insert that binds the uuid-name `name`. */
  predicate Binds(op: Op, name: string) {
    op.Insert? && op.uuidName == Some(name)
  }

  predicate BoundIn(ops: seq<Op>, name: string) {
    exists j :: 0 <= j < |ops| && Binds(ops[j], name)
  }

  /** Every uuid-name an operation refers to is bound by an insert that comes
      earlier in submission order, so the server can resolve it. */
  ghost predicate NamesBoundBeforeUse(ops: seq<Op>) {
    forall i, name :: 0 <= i < |ops| && References(ops[i], name) ==> BoundIn(ops[..i], name)
  }

  /** No uuid-name is bound by two inserts of the same transaction. */
  predicate NamesBoundOnce(ops: seq<Op>) {
    forall i, j :: 0 <= i < j < |ops| && ops[i].Insert? && ops[i].uuidName.Some? ==> !Binds(ops[j], ops[i].uuidName.value)
  }

  /** Appending a batch whose uuid-names are in scope keeps the whole batch in scope. */
  lemma NamesBoundBeforeUseAppend(a: seq<Op>, b: seq<Op>)
    requires NamesBoundBeforeUse(a) && NamesBoundBeforeUse(b)
    ensures NamesBoundBeforeUse(a + b)
  {
    var ab := a + b;
    forall i, name | 0 <= i < |ab| && References(ab[i], name)
      ensures BoundIn(ab[..i], name)
    {
      if i < |a| {
        assert ab[i] == a[i];
        var j :| 0 <= j < i && Binds(a[..i][j], name);
        assert ab[..i][j] == a[..i][j];
      } else {
        assert ab[i] == b[i - |a|];
        var j :| 0 <= j < i - |a| && Binds(b[..i - |a|][j], name);
        assert ab[..i][|a| + j] == b[..i - |a|][j];
      }
    }
  }

  /** A prefix of a batch whose uuid-names are in scope is in scope too. */
  lemma NamesBoundBeforeUsePrefix(ops: seq<Op>, n: nat)
    requires NamesBoundBeforeUse(ops) && n <= |ops|
    ensures NamesBoundBeforeUse(ops[..n])
  {
    forall i, name | 0 <= i < n && References(ops[..n][i], name)
      ensures BoundIn(ops[..n][..i], name)
    {
      assert ops[..n][i] == ops[i];
      assert ops[..n][..i] == ops[..i];
    }
  }

  /** Two batches that each bind their uuid-names once, where no name the first
      binds is bound again by the second, bind every name once when joined. */
  lemma NamesBoundOnceAppend(a: seq<Op>, b: seq<Op>)
    requires NamesBoundOnce(a) && NamesBoundOnce(b)
    requires forall i :: 0 <= i < |a| && a[i].Insert? && a[i].uuidName.Some? ==> !BoundIn(b, a[i].uuidName.value)
    ensures NamesBoundOnce(a + b)
  {
    var ab := a + b;
    forall i, j | 0 <= i < j < |ab| && ab[i].Insert? && ab[i].uuidName.Some?
      ensures !Binds(ab[j], ab[i].uuidName.value)
    {
      if j < |a| {
        assert ab[i] == a[i] && ab[j] == a[j];
      } else if i < |a| {
        assert ab[i] == a[i] && ab[j] == b[j - |a|];
      } else {
        assert ab[i] == b[i - |a|] && ab[j] == b[j - |a|];
      }
    }
  }
}
