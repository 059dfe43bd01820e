/**
 * TerminationPointCreateCommand: for each newly created termination point,
 * insert its Interface under a uuid-name, insert a Port whose "interfaces"
 * refers to that uuid-name, and add the Port's uuid-name to the "ports" of
 * its Bridge.
 */
module TerminationPointCreate {
  import opened Wrappers
  import opened Notation
  import opened Schema
  import opened Transaction
  import opened Tokenizer

  /** The YANG identity naming an interface type. */
  type InterfaceTypeId = string

  datatype NodeRef = NodeRef(node: string)

  /** The desired termination point; `options` holds the option strings, each
      meant as "key=value". */
  datatype TerminationPoint = TerminationPoint(
    name: string,
    bridgeName: string,
    attachedTo: Option<NodeRef>,
    interfaceType: InterfaceTypeId,
    ofport: Option<int>,
    ofportRequest: Option<int>,
    options: Option<seq<string>>)

  /** The created data of a data-change event, in iteration order. */
  datatype DataChangeEvent = DataChangeEvent(createdData: seq<TerminationPoint>)

  /** An option string is accepted when splitting it at '=' gives exactly two tokens. */
  function ParseOption(option: string): (r: Option<(string, string)>)
    ensures r.Some? ==> IsToken(r.value.0, '=') && IsToken(r.value.1, '=')
  {
    var tokens := Tokens(option, '=');
    if |tokens| == 2 then Some((tokens[0], tokens[1])) else None
  }

  /** The option left in force after the loop: the last accepted one, if any. */
  function LastAccepted(options: seq<string>): Option<(string, string)>
    decreases |options|
  {
    if options == [] then None
    else if ParseOption(options[|options| - 1]).Some? then ParseOption(options[|options| - 1])
    else LastAccepted(options[..|options| - 1])
  }

  /** `row` with its "options" replaced by the single pair `option`, if there is one. */
  function WithOptions(row: Row, option: Option<(string, string)>): Row {
    if option.None? then row
    else row["options" := MapOf(map[AString(option.value.0) := AString(option.value.1)])]
  }

  function InterfaceUuidName(name: string): string {
    "Interface_" + name
  }

  function PortUuidName(name: string): string {
    "Port_" + name
  }

  /** The first Interface column, in the order the command sets them, whose setter raises. */
  function InterfaceFailure(schema: DatabaseSchema, tp: TerminationPoint): Option<string> {
    if !Supports(schema, "Interface", "name") then Some("name")
    else if !Supports(schema, "Interface", "type") then Some("type")
    else if tp.ofport.Some? && !Supports(schema, "Interface", "ofport") then Some("ofport")
    else if tp.ofportRequest.Some? && !Supports(schema, "Interface", "ofport_request") then Some("ofport_request")
    else if tp.options.Some? && LastAccepted(tp.options.value).Some? && !Supports(schema, "Interface", "options") then Some("options")
    else None
  }

  function InterfaceRow(tp: TerminationPoint, typeName: InterfaceTypeId -> string): Row {
    var named := map["name" := Scalar(AString(tp.name)), "type" := Scalar(AString(typeName(tp.interfaceType)))];
    var withPort := if tp.ofport.Some? then named["ofport" := SetOf({AInteger(tp.ofport.value)})] else named;
    var withRequest := if tp.ofportRequest.Some? then withPort["ofport_request" := SetOf({AInteger(tp.ofportRequest.value)})] else withPort;
    if tp.options.Some? then WithOptions(withRequest, LastAccepted(tp.options.value)) else withRequest
  }

  function InterfaceInsert(tp: TerminationPoint, typeName: InterfaceTypeId -> string): Op {
    Insert("Interface", InterfaceRow(tp, typeName), Some(InterfaceUuidName(tp.name)))
  }

  function PortInsert(tp: TerminationPoint): Op {
    Insert("Port",
           map["name" := Scalar(AString(tp.name)), "interfaces" := SetOf({AUuid(NamedUuid(InterfaceUuidName(tp.name)))})],
           Some(PortUuidName(tp.name)))
  }

  function PortsMutation(tp: TerminationPoint): Op {
    Mutate("Bridge",
           [Mutation("ports", SetInsert, SetOf({AUuid(NamedUuid(PortUuidName(tp.name)))}))],
           [Condition("name", Equal, Scalar(AString(tp.bridgeName)))])
  }

  /** The three operations for one termination point, in the order they are appended. */
  function CreatedOps(tp: TerminationPoint, typeName: InterfaceTypeId -> string): seq<Op> {
    [InterfaceInsert(tp, typeName), PortInsert(tp), PortsMutation(tp)]
  }

  /** What the command does for one termination point. */
  function CreateRun(schema: DatabaseSchema, typeName: InterfaceTypeId -> string, tp: TerminationPoint): Run {
    var ops := CreatedOps(tp, typeName);
    // the debug log dereferences attachedTo before anything is built
    if tp.attachedTo.None? then Run([], Raised(NullPointer))
    else if InterfaceFailure(schema, tp).Some? then Run([], Raised(SchemaVersionMismatch("Interface", InterfaceFailure(schema, tp).value)))
    else if !Supports(schema, "Port", "name") then Run(ops[..1], Raised(SchemaVersionMismatch("Port", "name")))
    else if !Supports(schema, "Port", "interfaces") then Run(ops[..1], Raised(SchemaVersionMismatch("Port", "interfaces")))
    else if !Supports(schema, "Bridge", "name") then Run(ops[..2], Raised(SchemaVersionMismatch("Bridge", "name")))
    else if !Supports(schema, "Bridge", "ports") then Run(ops[..2], Raised(SchemaVersionMismatch("Bridge", "ports")))
    else Run(ops, Completed)
  }

  /** What the command does for the created termination points, in iteration order. */
  function CreateOps(schema: DatabaseSchema, typeName: InterfaceTypeId -> string, tps: seq<TerminationPoint>): Run
    decreases |tps|
  {
    if tps == [] then Done
    else Then(CreateRun(schema, typeName, tps[0]), CreateOps(schema, typeName, tps[1..]))
  }

  /** The schema supports every column the command sets. */
  predicate SupportsAllColumns(schema: DatabaseSchema) {
    && Supports(schema, "Interface", "name") && Supports(schema, "Interface", "type")
    && Supports(schema, "Interface", "ofport") && Supports(schema, "Interface", "ofport_request")
    && Supports(schema, "Interface", "options")
    && Supports(schema, "Port", "name") && Supports(schema, "Port", "interfaces")
    && Supports(schema, "Bridge", "name") && Supports(schema, "Bridge", "ports")
  }

  /** The point is attached and the schema supports every column the command
      sets for it: its Interface columns (the optional ones only when the point
      gives them), the Port's name and interfaces, and the Bridge's name and ports. */
  predicate SupportsPoint(schema: DatabaseSchema, tp: TerminationPoint) {
    && tp.attachedTo.Some? && InterfaceFailure(schema, tp).None?
    && Supports(schema, "Port", "name") && Supports(schema, "Port", "interfaces")
    && Supports(schema, "Bridge", "name") && Supports(schema, "Bridge", "ports")
  }

  // Option parsing

  /** A well-formed "key=value" option is accepted as that pair. */
  lemma ParseOptionOfPair(key: string, value: string)
    requires IsToken(key, '=') && IsToken(value, '=')
    ensures ParseOption(key + "=" + value) == Some((key, value))
  {
    assert Join([value], '=') == value;
    assert Join([key, value], '=') == key + "=" + value;
    TokensOfJoin([key, value], '=');
  }

  /** Empty tokens are dropped: "=key=value" and "key==value" are accepted as "key=value" is. */
  lemma ParseOptionDropsEmptyTokens(key: string, value: string)
    requires IsToken(key, '=') && IsToken(value, '=')
    ensures ParseOption("=" + key + "=" + value) == Some((key, value))
    ensures ParseOption(key + "==" + value) == Some((key, value))
  {
    ParseOptionOfPair(key, value);
    LeadingDelimiterDropped(key + "=" + value, '=');
    assert "=" + key + "=" + value == ['='] + (key + "=" + value);
    DelimiterRunCollapses(key, value, '=', []);
    assert key + "==" + value == key + ['=', '='] + value;
    assert key + "=" + value == key + ['='] + value;
  }

  /** An option without '=' is rejected. */
  lemma ParseOptionRejectsNoDelimiter(option: string)
    requires '=' !in option
    ensures ParseOption(option) == None
  {
    TokensWithoutDelimiter(option, '=');
  }

  /** An option with three tokens, such as "a=b=c", is rejected. */
  lemma ParseOptionRejectsThreeTokens(a: string, b: string, c: string)
    requires IsToken(a, '=') && IsToken(b, '=') && IsToken(c, '=')
    ensures ParseOption(a + "=" + b + "=" + c) == None
  {
    assert Join([c], '=') == c;
    assert Join([b, c], '=') == b + "=" + c;
    assert Join([a, b, c], '=') == a + "=" + b + "=" + c;
    TokensOfJoin([a, b, c], '=');
  }

  lemma ParseOptionExamples()
    ensures ParseOption("a=b") == Some(("a", "b"))
    ensures ParseOption("=a=b") == Some(("a", "b"))
    ensures ParseOption("a==b") == Some(("a", "b"))
    ensures ParseOption("a=b=") == Some(("a", "b"))
    ensures ParseOption("ab") == None
    ensures ParseOption("a=b=c") == None
  {
    ParseOptionOfPair("a", "b");
    assert "a" + "=" + "b" == "a=b";
    ParseOptionDropsEmptyTokens("a", "b");
    assert "=" + "a" + "=" + "b" == "=a=b";
    assert "a" + "==" + "b" == "a==b";
    TrailingDelimiterDropped("a=b", '=');
    assert "a=b" + ['='] == "a=b=";
    ParseOptionRejectsNoDelimiter("ab");
    ParseOptionRejectsThreeTokens("a", "b", "c");
    assert "a" + "=" + "b" + "=" + "c" == "a=b=c";
  }

  /** An accepted option replaces the one in force; a rejected one leaves it unchanged. */
  lemma LastAcceptedAppend(options: seq<string>, option: string)
    ensures LastAccepted(options + [option])
         == if ParseOption(option).Some? then ParseOption(option) else LastAccepted(options)
  {
    assert (options + [option])[..|options|] == options;
  }

  /** The option in force is the last accepted one: none exactly when every option
      is rejected, otherwise the pair of an accepted option after which all are rejected. */
  lemma {:induction false} LastAcceptedIsLast(options: seq<string>)
    ensures LastAccepted(options).None? <==> forall i :: 0 <= i < |options| ==> ParseOption(options[i]).None?
    ensures LastAccepted(options).Some? ==>
              exists i :: 0 <= i < |options| && ParseOption(options[i]) == LastAccepted(options) &&
                          forall j :: i < j < |options| ==> ParseOption(options[j]).None?
    decreases |options|
  {
    if options != [] {
      var n := |options| - 1;
      var init := options[..n];
      LastAcceptedIsLast(init);
      assert options == init + [options[n]];
      LastAcceptedAppend(init, options[n]);
      if ParseOption(options[n]).None? && LastAccepted(init).Some? {
        var i :| 0 <= i < |init| && ParseOption(init[i]) == LastAccepted(init) &&
                 forall j :: i < j < |init| ==> ParseOption(init[j]).None?;
        assert options[i] == init[i];
        forall j | i < j < |options| ensures ParseOption(options[j]).None? {
          if j < n { assert options[j] == init[j]; }
        }
      }
      if ParseOption(options[n]).None? {
        forall i | 0 <= i < n ensures options[i] == init[i] { }
      }
    }
  }

  // The command

  /** The inner loop over the option strings: each accepted option overwrites the
      interface's "options" with its single pair. `ok` is false when such a write
      raises a schema version mismatch. */
  method ConfigureOptions(ovsInterface: TypedRow, options: seq<string>) returns (ok: bool)
    modifies ovsInterface
    ensures ok <==> LastAccepted(options).None? || Supports(ovsInterface.schema, ovsInterface.table, "options")
    ensures ok ==> ovsInterface.columns == WithOptions(old(ovsInterface.columns), LastAccepted(options))
  {
    ok := true;
    for i := 0 to |options|
      invariant ovsInterface.columns == WithOptions(old(ovsInterface.columns), LastAccepted(options[..i]))
      invariant LastAccepted(options[..i]).Some? ==> Supports(ovsInterface.schema, ovsInterface.table, "options")
    {
      assert options[..i + 1] == options[..i] + [options[i]];
      LastAcceptedAppend(options[..i], options[i]);
      var tokens := Tokens(options[i], '=');
      if |tokens| == 2 {
        ok := ovsInterface.Set("options", MapOf(map[AString(tokens[0]) := AString(tokens[1])]));
        if !ok {
          LastAcceptedIsLast(options);
          return;
        }
      }
    }
    assert options[..|options|] == options;
  }

  /** The interface part of the loop body: a fresh Interface row with the point's
      name, mapped type, optional OpenFlow ports and options; `failure` names the
      column whose setter raised, if one did. */
  method ConfigureInterface(schema: DatabaseSchema, tp: TerminationPoint, typeName: InterfaceTypeId -> string)
    returns (ovsInterface: TypedRow, failure: Option<string>)
    ensures fresh(ovsInterface)
    ensures failure == InterfaceFailure(schema, tp)
    ensures failure.None? ==> ovsInterface.columns == InterfaceRow(tp, typeName)
  {
    ovsInterface := new TypedRow(schema, "Interface");
    failure := None;
    var ok := ovsInterface.Set("name", Scalar(AString(tp.name)));
    if !ok { return ovsInterface, Some("name"); }
    ok := ovsInterface.Set("type", Scalar(AString(typeName(tp.interfaceType))));
    if !ok { return ovsInterface, Some("type"); }
    if tp.ofport.Some? {
      ok := ovsInterface.Set("ofport", SetOf({AInteger(tp.ofport.value)}));
      if !ok { return ovsInterface, Some("ofport"); }
    }
    if tp.ofportRequest.Some? {
      ok := ovsInterface.Set("ofport_request", SetOf({AInteger(tp.ofportRequest.value)}));
      if !ok { return ovsInterface, Some("ofport_request"); }
    }
    if tp.options.Some? {
      ok := ConfigureOptions(ovsInterface, tp.options.value);
      if !ok { return ovsInterface, Some("options"); }
    }
  }

  /** The body of the loop over created termination points. */
  method CreateTerminationPoint(tx: TransactionBuilder, tp: TerminationPoint, typeName: InterfaceTypeId -> string)
    returns (outcome: Outcome)
    modifies tx
    ensures tx.operations == old(tx.operations) + CreateRun(tx.schema, typeName, tp).ops
    ensures outcome == CreateRun(tx.schema, typeName, tp).outcome
  {
    if tp.attachedTo.None? {
      return Raised(NullPointer);
    }

    // Configure interface
    var interfaceUuid := InterfaceUuidName(tp.name);
    var ovsInterface, failure := ConfigureInterface(tx.schema, tp, typeName);
    if failure.Some? {
      return Raised(SchemaVersionMismatch("Interface", failure.value));
    }
    tx.Add(Insert("Interface", ovsInterface.columns, Some(interfaceUuid)));

    // Configure port with the above interface details
    var portUuid := PortUuidName(tp.name);
    var port := new TypedRow(tx.schema, "Port");
    var ok := port.Set("name", Scalar(AString(tp.name)));
    if !ok { return Raised(SchemaVersionMismatch("Port", "name")); }
    ok := port.Set("interfaces", SetOf({AUuid(NamedUuid(interfaceUuid))}));
    if !ok { return Raised(SchemaVersionMismatch("Port", "interfaces")); }
    tx.Add(Insert("Port", port.columns, Some(portUuid)));

    // Configure bridge with the above port details
    var bridge := new TypedRow(tx.schema, "Bridge");
    ok := bridge.Set("name", Scalar(AString(tp.bridgeName)));
    if !ok { return Raised(SchemaVersionMismatch("Bridge", "name")); }
    ok := bridge.Set("ports", SetOf({AUuid(NamedUuid(portUuid))}));
    if !ok { return Raised(SchemaVersionMismatch("Bridge", "ports")); }
    tx.Add(Mutate("Bridge",
                  [Mutation("ports", SetInsert, bridge.columns["ports"])],
                  [Condition("name", Equal, bridge.columns["name"])]));
    outcome := Completed;
  }

  class TerminationPointCreateCommand {
    const changes: DataChangeEvent

    constructor (changes: DataChangeEvent)
      ensures this.changes == changes
    {
      this.changes := changes;
    }

    /** Appends, in iteration order, the operations of CreateOps for the created
        termination points, and reports how the command ended. */
    method Execute(tx: TransactionBuilder, typeName: InterfaceTypeId -> string) returns (outcome: Outcome)
      modifies tx
      ensures tx.operations == old(tx.operations) + CreateOps(tx.schema, typeName, changes.createdData).ops
      ensures outcome == CreateOps(tx.schema, typeName, changes.createdData).outcome
    {
      var created := changes.createdData;
      var schema := tx.schema;
      for i := 0 to |created|
        invariant tx.schema == schema
        invariant tx.operations == old(tx.operations) + CreateOps(schema, typeName, created[..i]).ops
        invariant CreateOps(schema, typeName, created[..i]).outcome == Completed
      {
        CreateOpsPrefixStep(schema, typeName, created, i);
        outcome := CreateTerminationPoint(tx, created[i], typeName);
        if outcome != Completed {
          CreateOpsStopsAt(schema, typeName, created, i + 1);
          return;
        }
      }
      assert created[..|created|] == created;
      outcome := Completed;
    }
  }

  // Properties of the emitted operations

  /** The termination points can be processed in two parts, the second only if the first did not raise. */
  lemma {:induction false} CreateOpsAppend(schema: DatabaseSchema, typeName: InterfaceTypeId -> string,
                                           xs: seq<TerminationPoint>, ys: seq<TerminationPoint>)
    ensures CreateOps(schema, typeName, xs + ys) == Then(CreateOps(schema, typeName, xs), CreateOps(schema, typeName, ys))
    decreases |xs|
  {
    if xs == [] {
      assert xs + ys == ys;
    } else {
      assert (xs + ys)[0] == xs[0] && (xs + ys)[1..] == xs[1..] + ys;
      CreateOpsAppend(schema, typeName, xs[1..], ys);
      ThenAssociative(CreateRun(schema, typeName, xs[0]), CreateOps(schema, typeName, xs[1..]), CreateOps(schema, typeName, ys));
    }
  }

  /** Processing one more termination point appends its run. */
  lemma CreateOpsSnoc(schema: DatabaseSchema, typeName: InterfaceTypeId -> string, xs: seq<TerminationPoint>, tp: TerminationPoint)
    ensures CreateOps(schema, typeName, xs + [tp]) == Then(CreateOps(schema, typeName, xs), CreateRun(schema, typeName, tp))
  {
    CreateOpsAppend(schema, typeName, xs, [tp]);
    var step := CreateRun(schema, typeName, tp);
    assert CreateOps(schema, typeName, [tp]) == Then(step, Done);
    assert step.outcome == Completed ==> step.ops + [] == step.ops;
  }

  /** One more point after a prefix that completed: its run is appended. */
  lemma CreateOpsPrefixStep(schema: DatabaseSchema, typeName: InterfaceTypeId -> string, tps: seq<TerminationPoint>, i: nat)
    requires i < |tps| && CreateOps(schema, typeName, tps[..i]).outcome == Completed
    ensures var step := CreateRun(schema, typeName, tps[i]);
            CreateOps(schema, typeName, tps[..i + 1]) == Run(CreateOps(schema, typeName, tps[..i]).ops + step.ops, step.outcome)
  {
    assert tps[..i + 1] == tps[..i] + [tps[i]];
    CreateOpsSnoc(schema, typeName, tps[..i], tps[i]);
  }

  /** Once a prefix of the points raises, the command ends with that prefix's run. */
  lemma CreateOpsStopsAt(schema: DatabaseSchema, typeName: InterfaceTypeId -> string, tps: seq<TerminationPoint>, n: nat)
    requires n <= |tps| && CreateOps(schema, typeName, tps[..n]).outcome != Completed
    ensures CreateOps(schema, typeName, tps) == CreateOps(schema, typeName, tps[..n])
  {
    CreateOpsAppend(schema, typeName, tps[..n], tps[n..]);
    assert tps[..n] + tps[n..] == tps;
  }

  /** A schema with every column the command can set supports every attached
      point, which then completes with its three operations. */
  lemma CreateRunFullySupported(schema: DatabaseSchema, typeName: InterfaceTypeId -> string, tp: TerminationPoint)
    requires SupportsAllColumns(schema) && tp.attachedTo.Some?
    ensures SupportsPoint(schema, tp)
    ensures CreateRun(schema, typeName, tp) == Run(CreatedOps(tp, typeName), Completed)
  {
  }

  /** A run appends a prefix of the point's three operations, all three exactly
      when it completes, and completes exactly when attachedTo is set and the
      schema supports every column the command sets for the point. */
  lemma CreateRunIsPrefix(schema: DatabaseSchema, typeName: InterfaceTypeId -> string, tp: TerminationPoint)
    ensures var r := CreateRun(schema, typeName, tp);
            r.ops <= CreatedOps(tp, typeName) &&
            (r.outcome == Completed <==> r.ops == CreatedOps(tp, typeName)) &&
            (r.outcome == Completed <==> SupportsPoint(schema, tp))
  {
  }

  /** The command completes exactly when every created point is attached and
      the schema supports every column the command sets for it. */
  lemma {:induction false} CreateOpsCompletes(schema: DatabaseSchema, typeName: InterfaceTypeId -> string, tps: seq<TerminationPoint>)
    ensures CreateOps(schema, typeName, tps).outcome == Completed <==> forall k :: 0 <= k < |tps| ==> SupportsPoint(schema, tps[k])
    decreases |tps|
  {
    if tps != [] {
      CreateOpsCompletes(schema, typeName, tps[1..]);
      CreateRunIsPrefix(schema, typeName, tps[0]);
      if forall k :: 0 <= k < |tps| ==> SupportsPoint(schema, tps[k]) {
        assert forall k :: 0 <= k < |tps[1..]| ==> SupportsPoint(schema, tps[1..][k]);
      } else {
        var k :| 0 <= k < |tps| && !SupportsPoint(schema, tps[k]);
        if k > 0 {
          assert tps[1..][k - 1] == tps[k];
        }
      }
    }
  }

  /** Exact output: when every point is attached and the schema supports every
      column the command sets for it, the command completes and appends exactly
      three operations per termination point, Interface insert, Port insert and
      Bridge mutate, in iteration order. */
  lemma CreateOpsFullySupported(schema: DatabaseSchema, typeName: InterfaceTypeId -> string, tps: seq<TerminationPoint>)
    requires forall k :: 0 <= k < |tps| ==> SupportsPoint(schema, tps[k])
    ensures var r := CreateOps(schema, typeName, tps);
            r.outcome == Completed && |r.ops| == 3 * |tps| &&
            forall k :: 0 <= k < |tps| ==>
              r.ops[3 * k] == InterfaceInsert(tps[k], typeName) &&
              r.ops[3 * k + 1] == PortInsert(tps[k]) &&
              r.ops[3 * k + 2] == PortsMutation(tps[k])
  {
    CreateOpsFullySupportedAt(schema, typeName, tps);
    var r := CreateOps(schema, typeName, tps);
    forall k | 0 <= k < |tps|
      ensures r.ops[3 * k] == InterfaceInsert(tps[k], typeName)
      ensures r.ops[3 * k + 1] == PortInsert(tps[k])
      ensures r.ops[3 * k + 2] == PortsMutation(tps[k])
    {
      assert (3 * k) / 3 == k && (3 * k) % 3 == 0;
      assert (3 * k + 1) / 3 == k && (3 * k + 1) % 3 == 1;
      assert (3 * k + 2) / 3 == k && (3 * k + 2) % 3 == 2;
    }
  }

  /** The same, operation by operation: operation i is operation i % 3 of point i / 3. */
  lemma {:induction false} CreateOpsFullySupportedAt(schema: DatabaseSchema, typeName: InterfaceTypeId -> string, tps: seq<TerminationPoint>)
    requires forall k :: 0 <= k < |tps| ==> SupportsPoint(schema, tps[k])
    ensures var r := CreateOps(schema, typeName, tps);
            r.outcome == Completed && |r.ops| == 3 * |tps| &&
            forall i :: 0 <= i < |r.ops| ==> r.ops[i] == CreatedOps(tps[i / 3], typeName)[i % 3]
    decreases |tps|
  {
    if tps != [] {
      assert forall k :: 0 <= k < |tps[1..]| ==> tps[1..][k] == tps[k + 1];
      CreateOpsFullySupportedAt(schema, typeName, tps[1..]);
      CreateRunIsPrefix(schema, typeName, tps[0]);
      var head := CreatedOps(tps[0], typeName);
      var tail := CreateOps(schema, typeName, tps[1..]).ops;
      var r := CreateOps(schema, typeName, tps);
      assert r == Run(head + tail, Completed);
      forall i | 0 <= i < |r.ops|
        ensures r.ops[i] == CreatedOps(tps[i / 3], typeName)[i % 3]
      {
        if i >= 3 {
          var j := i - 3;
          assert j / 3 == i / 3 - 1 && j % 3 == i % 3;
          assert tps[1..][j / 3] == tps[i / 3];
          assert r.ops[i] == tail[j];
        }
      }
    }
  }

  /** The columns of the Interface row: its name is the point's name, its type the
      mapper's result for the point's interface type, "ofport" and "ofport_request"
      are singleton sets present exactly when the point gives them, and "options"
      holds the single pair of the last accepted option, present exactly when some
      option was accepted. */
  lemma InterfaceRowColumns(tp: TerminationPoint, typeName: InterfaceTypeId -> string)
    ensures var row := InterfaceRow(tp, typeName);
            var option := if tp.options.Some? then LastAccepted(tp.options.value) else None;
            row.Keys <= {"name", "type", "ofport", "ofport_request", "options"} &&
            "name" in row && row["name"] == Scalar(AString(tp.name)) &&
            "type" in row && row["type"] == Scalar(AString(typeName(tp.interfaceType))) &&
            ("ofport" in row <==> tp.ofport.Some?) &&
            (tp.ofport.Some? ==> row["ofport"] == SetOf({AInteger(tp.ofport.value)})) &&
            ("ofport_request" in row <==> tp.ofportRequest.Some?) &&
            (tp.ofportRequest.Some? ==> row["ofport_request"] == SetOf({AInteger(tp.ofportRequest.value)})) &&
            ("options" in row <==> option.Some?) &&
            (option.Some? ==> row["options"] == MapOf(map[AString(option.value.0) := AString(option.value.1)]))
  {
  }

  /** The Interface insert binds the point's Interface uuid-name and refers to no uuid-name. */
  lemma InterfaceInsertReferencesNothing(tp: TerminationPoint, typeName: InterfaceTypeId -> string, name: string)
    ensures Binds(InterfaceInsert(tp, typeName), InterfaceUuidName(tp.name))
    ensures !References(InterfaceInsert(tp, typeName), name)
  {
    var row := InterfaceRow(tp, typeName);
    InterfaceRowColumns(tp, typeName);
    forall c | c in row ensures !Mentions(row[c], name) {
    }
  }

  /** The Port insert binds the point's Port uuid-name, sets only the Port's
      name (the point's name) and its interfaces, and refers to the point's
      Interface uuid-name and no other. */
  lemma PortInsertReferences(tp: TerminationPoint, name: string)
    ensures Binds(PortInsert(tp), PortUuidName(tp.name))
    ensures PortInsert(tp).table == "Port" && PortInsert(tp).row.Keys == {"name", "interfaces"}
    ensures PortInsert(tp).row["name"] == Scalar(AString(tp.name))
    ensures References(PortInsert(tp), name) <==> name == InterfaceUuidName(tp.name)
  {
    var row := PortInsert(tp).row;
    if name == InterfaceUuidName(tp.name) {
      assert Mentions(row["interfaces"], name);
    }
  }

  /** The Bridge mutate selects the bridge named by the point, applies one set
      insert to its "ports", binds nothing, and refers to the point's Port
      uuid-name and no other. */
  lemma PortsMutationReferences(tp: TerminationPoint, name: string)
    ensures PortsMutation(tp).Mutate? && PortsMutation(tp).table == "Bridge"
    ensures PortsMutation(tp).conditions == [Condition("name", Equal, Scalar(AString(tp.bridgeName)))]
    ensures |PortsMutation(tp).mutations| == 1
    ensures PortsMutation(tp).mutations[0].column == "ports" && PortsMutation(tp).mutations[0].mutator == SetInsert
    ensures !Binds(PortsMutation(tp), name)
    ensures References(PortsMutation(tp), name) <==> name == PortUuidName(tp.name)
  {
    if name == PortUuidName(tp.name) {
      assert Mentions(PortsMutation(tp).mutations[0].value, name);
    }
  }

  /** Within the three operations each uuid-name is bound before it is referred to. */
  lemma CreatedOpsBindBeforeUse(tp: TerminationPoint, typeName: InterfaceTypeId -> string)
    ensures NamesBoundBeforeUse(CreatedOps(tp, typeName))
  {
    var ops := CreatedOps(tp, typeName);
    forall i, name | 0 <= i < 3 && References(ops[i], name)
      ensures BoundIn(ops[..i], name)
    {
      InterfaceInsertReferencesNothing(tp, typeName, name);
      PortInsertReferences(tp, name);
      PortsMutationReferences(tp, name);
      if i == 1 {
        assert ops[..i][0] == InterfaceInsert(tp, typeName);
      } else {
        assert ops[..i][1] == PortInsert(tp);
      }
    }
  }

  /** Appending the command's operations keeps every uuid-name of the transaction
      bound before its first use, whether or not the command raised. */
  lemma {:induction false} CreateOpsKeepNamesInScope(schema: DatabaseSchema, typeName: InterfaceTypeId -> string,
                                                     tps: seq<TerminationPoint>, earlier: seq<Op>)
    requires NamesBoundBeforeUse(earlier)
    ensures NamesBoundBeforeUse(earlier + CreateOps(schema, typeName, tps).ops)
    decreases |tps|
  {
    if tps == [] {
      assert earlier + [] == earlier;
    } else {
      var step := CreateRun(schema, typeName, tps[0]);
      CreateRunIsPrefix(schema, typeName, tps[0]);
      CreatedOpsBindBeforeUse(tps[0], typeName);
      NamesBoundBeforeUsePrefix(CreatedOps(tps[0], typeName), |step.ops|);
      assert CreatedOps(tps[0], typeName)[..|step.ops|] == step.ops;
      NamesBoundBeforeUseAppend(earlier, step.ops);
      if step.outcome == Completed {
        var rest := CreateOps(schema, typeName, tps[1..]);
        CreateOpsKeepNamesInScope(schema, typeName, tps[1..], earlier + step.ops);
        assert CreateOps(schema, typeName, tps).ops == step.ops + rest.ops;
        assert earlier + step.ops + rest.ops == earlier + (step.ops + rest.ops);
      } else {
        assert CreateOps(schema, typeName, tps).ops == step.ops;
      }
    }
  }

  /** Distinct names give distinct uuid-names, and an Interface uuid-name never equals a Port one. */
  lemma UuidNamesDistinct(a: string, b: string)
    ensures InterfaceUuidName(a) == InterfaceUuidName(b) ==> a == b
    ensures PortUuidName(a) == PortUuidName(b) ==> a == b
    ensures InterfaceUuidName(a) != PortUuidName(b)
  {
    assert InterfaceUuidName(a)[10..] == a && InterfaceUuidName(b)[10..] == b;
    assert PortUuidName(a)[5..] == a && PortUuidName(b)[5..] == b;
    assert InterfaceUuidName(a)[0] == 'I' && PortUuidName(b)[0] == 'P';
  }

  /** Every uuid-name the command binds is the Interface or the Port uuid-name
      of one of the created points, whatever the schema. */
  lemma {:induction false} CreateOpsBindOwnNames(schema: DatabaseSchema, typeName: InterfaceTypeId -> string, tps: seq<TerminationPoint>)
    ensures forall i, name :: 0 <= i < |CreateOps(schema, typeName, tps).ops| && Binds(CreateOps(schema, typeName, tps).ops[i], name) ==>
              exists k :: 0 <= k < |tps| && (name == InterfaceUuidName(tps[k].name) || name == PortUuidName(tps[k].name))
    decreases |tps|
  {
    if tps != [] {
      var step := CreateRun(schema, typeName, tps[0]);
      var rest := CreateOps(schema, typeName, tps[1..]);
      var created := CreatedOps(tps[0], typeName);
      CreateRunIsPrefix(schema, typeName, tps[0]);
      CreateOpsBindOwnNames(schema, typeName, tps[1..]);
      var ops := CreateOps(schema, typeName, tps).ops;
      forall i, name | 0 <= i < |ops| && Binds(ops[i], name)
        ensures exists k :: 0 <= k < |tps| && (name == InterfaceUuidName(tps[k].name) || name == PortUuidName(tps[k].name))
      {
        if i < |step.ops| {
          assert ops[i] == created[i];
          assert name == InterfaceUuidName(tps[0].name) || name == PortUuidName(tps[0].name);
        } else {
          assert step.outcome == Completed;
          assert ops[i] == rest.ops[i - |step.ops|];
          assert Binds(rest.ops[i - |step.ops|], name);
          var k :| 0 <= k < |tps[1..]| && (name == InterfaceUuidName(tps[1..][k].name) || name == PortUuidName(tps[1..][k].name));
          assert tps[1..][k] == tps[k + 1];
        }
      }
    }
  }

  /** A point's own operations bind its two uuid-names once each, and so does
      any prefix of them. */
  lemma CreatedOpsBindOnce(tp: TerminationPoint, typeName: InterfaceTypeId -> string, n: nat)
    requires n <= 3
    ensures NamesBoundOnce(CreatedOps(tp, typeName)[..n])
  {
    UuidNamesDistinct(tp.name, tp.name);
  }

  /** The uuid-names of the first point are not bound by the rest of the run
      when the points have distinct names. */
  lemma FirstNamesNotRebound(schema: DatabaseSchema, typeName: InterfaceTypeId -> string, tps: seq<TerminationPoint>, name: string)
    requires tps != []
    requires forall k :: 0 < k < |tps| ==> tps[0].name != tps[k].name
    requires name == InterfaceUuidName(tps[0].name) || name == PortUuidName(tps[0].name)
    ensures !BoundIn(CreateOps(schema, typeName, tps[1..]).ops, name)
  {
    var rest := CreateOps(schema, typeName, tps[1..]).ops;
    CreateOpsBindOwnNames(schema, typeName, tps[1..]);
    forall j | 0 <= j < |rest|
      ensures !Binds(rest[j], name)
    {
      if rest[j].Insert? && rest[j].uuidName.Some? {
        var other := rest[j].uuidName.value;
        assert Binds(rest[j], other);
        var k :| 0 <= k < |tps[1..]| && (other == InterfaceUuidName(tps[1..][k].name) || other == PortUuidName(tps[1..][k].name));
        assert tps[1..][k] == tps[k + 1];
        UuidNamesDistinct(tps[0].name, tps[k + 1].name);
        UuidNamesDistinct(tps[k + 1].name, tps[0].name);
        assert other != name;
      }
    }
  }

  /** With distinct termination point names no uuid-name is bound twice, as a
      transaction requires, for any schema and whether or not the command raises. */
  lemma {:induction false} CreateOpsBindNamesOnce(schema: DatabaseSchema, typeName: InterfaceTypeId -> string, tps: seq<TerminationPoint>)
    requires forall k, l :: 0 <= k < l < |tps| ==> tps[k].name != tps[l].name
    ensures NamesBoundOnce(CreateOps(schema, typeName, tps).ops)
    decreases |tps|
  {
    if tps != [] {
      var step := CreateRun(schema, typeName, tps[0]);
      var rest := CreateOps(schema, typeName, tps[1..]);
      var created := CreatedOps(tps[0], typeName);
      CreateRunIsPrefix(schema, typeName, tps[0]);
      assert step.ops == created[..|step.ops|];
      CreatedOpsBindOnce(tps[0], typeName, |step.ops|);
      if step.outcome == Completed {
        CreateOpsBindNamesOnce(schema, typeName, tps[1..]);
        forall i | 0 <= i < |step.ops| && step.ops[i].Insert? && step.ops[i].uuidName.Some?
          ensures !BoundIn(rest.ops, step.ops[i].uuidName.value)
        {
          assert step.ops[i] == created[i];
          FirstNamesNotRebound(schema, typeName, tps, step.ops[i].uuidName.value);
        }
        NamesBoundOnceAppend(step.ops, rest.ops);
      }
    }
  }
}
