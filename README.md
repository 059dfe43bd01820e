# Reconciliation commands of the OVSDB southbound plugin

This project models two reconciliation commands of the OpenDaylight OVSDB
southbound plugin. Each turns changes in desired configuration into OVSDB
operations (RFC 7047) and appends them, in order, to a shared transaction
builder.

- **ProtocolUpdateCommand** checks each created or updated protocol entry of a
  bridge. If the operational state does not already hold the entry, it appends
  one `mutate` on table Bridge. That mutate inserts the OpenFlow protocol string
  into the bridge's `protocols`, with the condition `name == <bridge name>`.
- **TerminationPointCreateCommand** handles each created termination point. It
  appends an `insert` of an Interface row under the uuid-name
  `Interface_<name>`, then an `insert` of a Port row under `Port_<name>` whose
  `interfaces` refers to that uuid-name, then a `mutate` of the Bridge that
  inserts `Port_<name>` into `ports`. Option strings `key=value` are split as
  `java.util.StringTokenizer` splits them at `=`.

How it is built:

- `Notation`: atoms, datums, conditions, mutations and the `insert` and
  `mutate` operations of RFC 7047 (sections 5.1, 5.2.1 and 5.2.4). It also
  states the scoping rule for uuid-names: an insert earlier in the same
  transaction must bind each uuid-name that an operation uses, and no uuid-name
  may be bound twice.
- `Schema`: the live schema, reduced to the set of columns per table that its
  version supports. `TypedRow` is the typed-row wrapper. Each setter records a
  column value, or raises `SchemaVersionMismatchException` when the column is
  not supported.
- `Transaction`: the `TransactionBuilder` class, whose operation list only
  grows. A command's result is modelled as a `Run`: the operations it
  appended, and whether it completed or raised part way.
- `Tokenizer`: the splitting done by `StringTokenizer`.
- `ProtocolUpdate` and `TerminationPointCreate`: one module per command. Each
  has a specification function of the inputs (`ProtocolOps`, `CreateOps`), the
  imperative methods with their loops, proved to append exactly what that
  function gives, and lemmas about that function.

How exceptions end a command:

- A schema version mismatch is caught per entry only in part. In
  ProtocolUpdateCommand only `setProtocols` stands inside the `try`.
  `setName` stands before it, so a mismatch on Bridge `name` escapes and ends
  the command. `EntryRaises` states the escaping case and
  `ProtocolsUnsupportedAddsNothing` the caught one.
- TerminationPointCreateCommand catches nothing. A mismatch in any setter ends
  the command after the operations already appended. A null `attachedTo` also
  ends the command, before the point appends anything: the debug log
  dereferences it, which throws a `NullPointerException`. The "3 operations
  per termination point" result holds exactly when every point is attached and
  the schema supports every column the command sets for it (`SupportsPoint`;
  the optional Interface columns count only when the point gives them).
  `CreateOpsCompletes` states this if-and-only-if, `CreateOpsFullySupported`
  gives the exact operations in that case, and `CreateRunIsPrefix` states what
  a point appends otherwise.

## Model

| member | source | states |
|---|---|---|
| ProtocolUpdate.ExecuteChanges | southbound/southbound-impl/src/main/java/org/opendaylight/ovsdb/southbound/ovsdb/transact/ProtocolUpdateCommand.java:39-51 | Both public overloads hand the extracted created-or-updated protocol entries and bridges to the same core. The builder gains exactly the operations of `ProtocolOps` for them. |
| ProtocolUpdate.Execute | southbound/southbound-impl/src/main/java/org/opendaylight/ovsdb/southbound/ovsdb/transact/ProtocolUpdateCommand.java:53-93 | The loop over entries appends exactly `ProtocolOps(...).ops` after the existing operations, so nothing is removed or reordered. It reports the same outcome as `ProtocolOps`. |
| ProtocolUpdate.UpdateEntry | southbound/southbound-impl/src/main/java/org/opendaylight/ovsdb/southbound/ovsdb/transact/ProtocolUpdateCommand.java:57-90 | One loop iteration appends exactly the entry's operation (none or one) and raises exactly when `EntryRun` does. |
| ProtocolUpdate.EntryEmission | southbound/southbound-impl/src/main/java/org/opendaylight/ovsdb/southbound/ovsdb/transact/ProtocolUpdateCommand.java:57-83 | An entry emits at most one operation. It emits one if and only if: the entry is absent from the operational state; the resolved bridge exists and has a name; the entry value and its protocol are non-null; the protocol is in the protocol map; and the schema supports Bridge `name` and `protocols`. The operation inserts {protocol string} into `protocols` where `name` equals the name of the operational bridge if present, else of the desired one. |
| ProtocolUpdate.EntryRaises | southbound/southbound-impl/src/main/java/org/opendaylight/ovsdb/southbound/ovsdb/transact/ProtocolUpdateCommand.java:57-88 | An entry raises exactly when it is absent from the operational state, its bridge and bridge name are known, its protocol is set and mapped, and Bridge `name` is unsupported: `setName` stands outside the try. It then appends nothing and raises the `name` mismatch. |
| ProtocolUpdate.ConvergedEntriesAppendNothing | southbound/southbound-impl/src/main/java/org/opendaylight/ovsdb/southbound/ovsdb/transact/ProtocolUpdateCommand.java:56-59 | Idempotence: if the operational state holds every entry, the command appends nothing and completes. |
| ProtocolUpdate.ProtocolOpsBounded | southbound/southbound-impl/src/main/java/org/opendaylight/ovsdb/southbound/ovsdb/transact/ProtocolUpdateCommand.java:56-83 | At most one operation per entry. Every appended operation is the single operation that some input entry emits. |
| ProtocolUpdate.ProtocolOpsAppend | southbound/southbound-impl/src/main/java/org/opendaylight/ovsdb/southbound/ovsdb/transact/ProtocolUpdateCommand.java:56-92 | Processing entries xs then ys equals processing xs, and then ys only if xs did not raise. |
| ProtocolUpdate.ProtocolsUnsupportedAddsNothing | southbound/southbound-impl/src/main/java/org/opendaylight/ovsdb/southbound/ovsdb/transact/ProtocolUpdateCommand.java:78-88 | With Bridge `protocols` unsupported and `name` supported, the command appends nothing to the transaction and completes: each entry's mismatch is caught and the loop goes on. |
| ProtocolUpdate.ProtocolOpsComplete | southbound/southbound-impl/src/main/java/org/opendaylight/ovsdb/southbound/ovsdb/transact/ProtocolUpdateCommand.java:76-88 | If the schema supports Bridge `name`, the command never raises. |
| ProtocolUpdate.ProtocolOpsKeepNamesInScope | southbound/southbound-impl/src/main/java/org/opendaylight/ovsdb/southbound/ovsdb/transact/ProtocolUpdateCommand.java:80-83 | The emitted mutates refer to no uuid-name, so appending them keeps every uuid-name of the transaction bound before use. |
| Schema.TypedRow.constructor | southbound/southbound-impl/src/main/java/org/opendaylight/ovsdb/southbound/ovsdb/transact/ProtocolUpdateCommand.java:76 | A fresh typed-row wrapper of the given table over the given schema has no columns set. |
| Schema.TypedRow.Set | southbound/southbound-impl/src/main/java/org/opendaylight/ovsdb/southbound/ovsdb/transact/ProtocolUpdateCommand.java:77-79 | A setter succeeds if and only if the live schema supports the column. On success it records the value; otherwise it leaves the row unchanged. |
| Transaction.TransactionBuilder.Add | southbound/southbound-impl/src/main/java/org/opendaylight/ovsdb/southbound/ovsdb/transact/ProtocolUpdateCommand.java:80-83 | `add` appends the operation at the end and changes nothing else. |
| TerminationPointCreate.TerminationPointCreateCommand.constructor | southbound/southbound-impl/src/main/java/org/opendaylight/ovsdb/southbound/ovsdb/transact/TerminationPointCreateCommand.java:38-40 | The command keeps the change event it is given. |
| TerminationPointCreate.TerminationPointCreateCommand.Execute | southbound/southbound-impl/src/main/java/org/opendaylight/ovsdb/southbound/ovsdb/transact/TerminationPointCreateCommand.java:43-92 | The loop over created termination points appends exactly `CreateOps(...).ops` after the existing operations, in iteration order. It reports the same outcome as `CreateOps`. |
| TerminationPointCreate.CreateTerminationPoint | southbound/southbound-impl/src/main/java/org/opendaylight/ovsdb/southbound/ovsdb/transact/TerminationPointCreateCommand.java:45-91 | One iteration appends exactly `CreateRun(...).ops` and ends as `CreateRun` does: a null pointer if `attachedTo` is null, otherwise the first column whose setter raises. |
| TerminationPointCreate.ConfigureInterface | southbound/southbound-impl/src/main/java/org/opendaylight/ovsdb/southbound/ovsdb/transact/TerminationPointCreateCommand.java:51-74 | The Interface wrapper gets the columns of `InterfaceRow`, unless a setter raises. If one does, the failure names the first unsupported column, in the order the code sets them. |
| TerminationPointCreate.ConfigureOptions | southbound/southbound-impl/src/main/java/org/opendaylight/ovsdb/southbound/ovsdb/transact/TerminationPointCreateCommand.java:65-74 | After the inner loop, `options` holds the single pair of the last accepted option, or is untouched if none was accepted. The loop raises only if some option is accepted and the schema lacks Interface `options`. |
| TerminationPointCreate.ParseOption | southbound/southbound-impl/src/main/java/org/opendaylight/ovsdb/southbound/ovsdb/transact/TerminationPointCreateCommand.java:67-69 | An accepted option yields two tokens, each non-empty and free of `=`. |
| TerminationPointCreate.ParseOptionOfPair | southbound/southbound-impl/src/main/java/org/opendaylight/ovsdb/southbound/ovsdb/transact/TerminationPointCreateCommand.java:67-69 | `key=value` with non-empty, `=`-free key and value is accepted as (key, value). |
| TerminationPointCreate.ParseOptionDropsEmptyTokens | southbound/southbound-impl/src/main/java/org/opendaylight/ovsdb/southbound/ovsdb/transact/TerminationPointCreateCommand.java:67-69 | `=key=value` and `key==value` are accepted as (key, value), because empty tokens are dropped. |
| TerminationPointCreate.ParseOptionRejectsNoDelimiter | southbound/southbound-impl/src/main/java/org/opendaylight/ovsdb/southbound/ovsdb/transact/TerminationPointCreateCommand.java:67-68 | An option without `=` is rejected. |
| TerminationPointCreate.ParseOptionRejectsThreeTokens | southbound/southbound-impl/src/main/java/org/opendaylight/ovsdb/southbound/ovsdb/transact/TerminationPointCreateCommand.java:67-68 | `a=b=c` (three tokens) is rejected. |
| TerminationPointCreate.ParseOptionExamples | southbound/southbound-impl/src/main/java/org/opendaylight/ovsdb/southbound/ovsdb/transact/TerminationPointCreateCommand.java:67-69 | `a=b`, `=a=b`, `a==b` and `a=b=` give ("a", "b"). `ab` and `a=b=c` are rejected. |
| TerminationPointCreate.LastAcceptedAppend | southbound/southbound-impl/src/main/java/org/opendaylight/ovsdb/southbound/ovsdb/transact/TerminationPointCreateCommand.java:66-72 | An accepted option replaces the pair in force. A rejected option leaves it unchanged. |
| TerminationPointCreate.LastAcceptedIsLast | southbound/southbound-impl/src/main/java/org/opendaylight/ovsdb/southbound/ovsdb/transact/TerminationPointCreateCommand.java:65-74 | The pair in force is absent exactly when every option is rejected. Otherwise it is the pair of an accepted option that has only rejected options after it. |
| TerminationPointCreate.InterfaceRowColumns | southbound/southbound-impl/src/main/java/org/opendaylight/ovsdb/southbound/ovsdb/transact/TerminationPointCreateCommand.java:52-74 | Interface row: `name` is the point's name. `type` is the mapper's result for its interface type. `ofport` and `ofport_request` are singleton sets, present exactly when the input is non-null. `options` is present exactly when an option was accepted, and then holds only the last accepted pair. No other column is set. |
| TerminationPointCreate.InterfaceInsertReferencesNothing | southbound/southbound-impl/src/main/java/org/opendaylight/ovsdb/southbound/ovsdb/transact/TerminationPointCreateCommand.java:51-75 | The Interface insert binds the uuid-name `"Interface_" + name` and refers to no uuid-name. |
| TerminationPointCreate.PortInsertReferences | southbound/southbound-impl/src/main/java/org/opendaylight/ovsdb/southbound/ovsdb/transact/TerminationPointCreateCommand.java:78-82 | The Port insert binds the point's Port uuid-name. It sets only `name` (the point's name) and `interfaces`, and it refers to the point's Interface uuid-name and no other. |
| TerminationPointCreate.PortsMutationReferences | southbound/southbound-impl/src/main/java/org/opendaylight/ovsdb/southbound/ovsdb/transact/TerminationPointCreateCommand.java:85-91 | The Bridge mutate selects the bridge whose `name` equals the point's bridge name and applies one set insert to `ports`. It binds nothing and refers to the point's Port uuid-name and no other. |
| TerminationPointCreate.CreatedOpsBindBeforeUse | southbound/southbound-impl/src/main/java/org/opendaylight/ovsdb/southbound/ovsdb/transact/TerminationPointCreateCommand.java:75-91 | In the order Interface, Port, Bridge, each uuid-name is bound before it is referred to. |
| TerminationPointCreate.CreateRunIsPrefix | southbound/southbound-impl/src/main/java/org/opendaylight/ovsdb/southbound/ovsdb/transact/TerminationPointCreateCommand.java:45-91 | A point appends a prefix of its three operations. It appends all three exactly when it completes, and it completes exactly when it is attached and every column it sets is supported. |
| TerminationPointCreate.CreateOpsAppend | southbound/southbound-impl/src/main/java/org/opendaylight/ovsdb/southbound/ovsdb/transact/TerminationPointCreateCommand.java:44-92 | Processing points xs then ys equals processing xs, and then ys only if xs did not raise. |
| TerminationPointCreate.CreateOpsCompletes | southbound/southbound-impl/src/main/java/org/opendaylight/ovsdb/southbound/ovsdb/transact/TerminationPointCreateCommand.java:44-91 | The command completes exactly when every created point is attached and the schema supports every column the command sets for that point. |
| TerminationPointCreate.CreateOpsFullySupported | southbound/southbound-impl/src/main/java/org/opendaylight/ovsdb/southbound/ovsdb/transact/TerminationPointCreateCommand.java:44-91 | When every one of N points is attached and the schema supports every column the command sets for it: exactly 3·N operations, and operations 3k, 3k+1 and 3k+2 are point k's Interface insert, Port insert and Bridge mutate. |
| TerminationPointCreate.CreateOpsFullySupportedAt | southbound/southbound-impl/src/main/java/org/opendaylight/ovsdb/southbound/ovsdb/transact/TerminationPointCreateCommand.java:44-91 | Under the same condition: the command completes with 3·N operations, and operation i is operation i mod 3 of point i div 3's Interface insert, Port insert and Bridge mutate. |
| TerminationPointCreate.CreateRunFullySupported | southbound/southbound-impl/src/main/java/org/opendaylight/ovsdb/southbound/ovsdb/transact/TerminationPointCreateCommand.java:45-91 | A schema with every column the command can set supports every attached point, which then completes and appends its three operations. |
| TerminationPointCreate.CreateOpsPrefixStep | southbound/southbound-impl/src/main/java/org/opendaylight/ovsdb/southbound/ovsdb/transact/TerminationPointCreateCommand.java:44-46 | After a prefix of the points that completed, the next point's run is appended to the prefix's operations and decides the outcome. |
| TerminationPointCreate.CreateOpsStopsAt | southbound/southbound-impl/src/main/java/org/opendaylight/ovsdb/southbound/ovsdb/transact/TerminationPointCreateCommand.java:44-46 | Once a prefix of the points raises, the whole command ends with that prefix's operations and failure. |
| TerminationPointCreate.CreateOpsKeepNamesInScope | southbound/southbound-impl/src/main/java/org/opendaylight/ovsdb/southbound/ovsdb/transact/TerminationPointCreateCommand.java:44-91 | Appending the command's operations, even after it raises part way, keeps every uuid-name of the transaction bound before first use. |
| TerminationPointCreate.UuidNamesDistinct | southbound/southbound-impl/src/main/java/org/opendaylight/ovsdb/southbound/ovsdb/transact/TerminationPointCreateCommand.java:51-78 | `"Interface_" + a` and `"Port_" + a` determine a, and an Interface uuid-name never equals a Port uuid-name. |
| TerminationPointCreate.CreateOpsBindNamesOnce | southbound/southbound-impl/src/main/java/org/opendaylight/ovsdb/southbound/ovsdb/transact/TerminationPointCreateCommand.java:44-91 | With distinct termination point names, no uuid-name is bound twice in the emitted operations, for any schema and whether or not the command raises. |
| TerminationPointCreate.CreateOpsBindOwnNames | southbound/southbound-impl/src/main/java/org/opendaylight/ovsdb/southbound/ovsdb/transact/TerminationPointCreateCommand.java:44-82 | Every uuid-name the command binds is the Interface or the Port uuid-name of one of the created points. |
| TerminationPointCreate.CreatedOpsBindOnce | southbound/southbound-impl/src/main/java/org/opendaylight/ovsdb/southbound/ovsdb/transact/TerminationPointCreateCommand.java:75-82 | A point's own operations, and any prefix of them, bind each uuid-name once. |
| TerminationPointCreate.FirstNamesNotRebound | southbound/southbound-impl/src/main/java/org/opendaylight/ovsdb/southbound/ovsdb/transact/TerminationPointCreateCommand.java:44-82 | When the points have distinct names, the rest of the run does not bind the first point's uuid-names again. |
| Tokenizer.TokensFrom | southbound/southbound-impl/src/main/java/org/opendaylight/ovsdb/southbound/ovsdb/transact/TerminationPointCreateCommand.java:67 | Every token is non-empty and contains no delimiter. |
| Tokenizer.Tokens | southbound/southbound-impl/src/main/java/org/opendaylight/ovsdb/southbound/ovsdb/transact/TerminationPointCreateCommand.java:67-68 | Every token of a string is non-empty and contains no delimiter. |
| Tokenizer.TokensOfJoin | southbound/southbound-impl/src/main/java/org/opendaylight/ovsdb/southbound/ovsdb/transact/TerminationPointCreateCommand.java:67-68 | Splitting tokens joined by single delimiters gives the tokens back. |
| Tokenizer.TokensWithoutDelimiter | southbound/southbound-impl/src/main/java/org/opendaylight/ovsdb/southbound/ovsdb/transact/TerminationPointCreateCommand.java:67-68 | A string without a delimiter is a single token, or none if it is empty. |
| Tokenizer.LeadingDelimiterDropped | southbound/southbound-impl/src/main/java/org/opendaylight/ovsdb/southbound/ovsdb/transact/TerminationPointCreateCommand.java:67-68 | A leading delimiter produces no empty token. |
| Tokenizer.DelimiterRunCollapses | southbound/southbound-impl/src/main/java/org/opendaylight/ovsdb/southbound/ovsdb/transact/TerminationPointCreateCommand.java:67-68 | Two adjacent delimiters split the string exactly as one does. |
| Tokenizer.TrailingDelimiterDropped | southbound/southbound-impl/src/main/java/org/opendaylight/ovsdb/southbound/ovsdb/transact/TerminationPointCreateCommand.java:67-68 | A trailing delimiter produces no token. |
| Tokenizer.TokensJoinTokens | southbound/southbound-impl/src/main/java/org/opendaylight/ovsdb/southbound/ovsdb/transact/TerminationPointCreateCommand.java:67-68 | Joining a string's tokens and splitting again gives the same tokens. |

## Left out

- Typed-row proxies and schema lookup (`TyperUtils`) are not part of this model. A typed row is a map from column name to value. A column's version range is reduced to "the live schema supports the column or not". The check that a value's type matches its column is not modelled, because the commands only write values of the declared kinds.
- Event extraction (`TransactUtils.extractCreatedOrUpdated`, `AsyncDataChangeEvent`, `DataTreeModification`) is not part of this model. `ExecuteChanges` takes the extraction functions as parameters. The created data of the termination-point event is given as a sequence.
- Java hash-map iteration order is unspecified. The model processes entries in the order of the input sequence and does not need distinct keys.
- ProtocolUpdate.ProtocolsUnsupportedAddsNothing: a column's support depends only on the schema version, so when `protocols` is unsupported every entry that reaches `setProtocols` is skipped together. The `try` at ProtocolUpdateCommand.java:78 and its `catch` at lines 86-88 act per entry, but the model cannot show one entry skipped while another is written.
- `InstanceIdentifier.firstIdentifierOf`: a protocol entry's identifier carries the identifier of its bridge augmentation, so the lookup always succeeds.
- `SouthboundConstants.OVSDB_PROTOCOL_MAP` is a parameter (a finite map). `SouthboundMapper.createOvsdbInterfaceType` is a total function parameter. What the real mapper does with a null or unknown interface type is not modelled.
- A termination point's name, bridge name, interface type and option strings are taken to be non-null. With a null name, Java would build `"Interface_null"`. A null value passed to a typed setter fails inside code that is not part of this model.
- Logging (`LOG.*`, `schemaMismatchLog`) has no effect that can be stated. The exception is the dereference of `attachedTo` in the debug log arguments, which is modelled.
- `new UUID(token)`: whether a token is sent as a uuid or as a named-uuid is decided by the JSON serialiser, which is not modelled. The tokens built here are never in uuid format, so they are modelled as named-uuids.
- An operation in the Java code shares column objects with its typed row. The model copies the row's value when the operation is built. Nothing writes to a row after its operation is added, so this makes no difference.
- `ofport` and `ofport_request` are Java `Integer`s that are only copied, never computed with, so they are modelled as unbounded integers.
- JSON wire serialisation, RPC transport, transaction submission and results, monitor sessions, the schema catalog and the live-switch integration test `library/src/test/java/org/opendaylight/ovsdb/lib/OvsDBClientTestIT.java` are outside the two commands and are not modelled.
