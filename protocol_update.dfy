/**
 * ProtocolUpdateCommand: for every desired protocol entry of a bridge that the
 * operational state does not already hold, one mutate on table Bridge that
 * inserts the entry's OpenFlow protocol string into the bridge's "protocols".
 */
module ProtocolUpdate {
  import opened Wrappers
  import opened Notation
  import opened Schema
  import opened Transaction

  /** The YANG identity naming an OpenFlow version. */
  type ProtocolId = string

  /** Identifier of a bridge augmentation in the topology tree. */
  datatype BridgeIid = BridgeIid(node: string, bridge: string)

  /** Identifier of a protocol entry; it lies under the augmentation of its bridge,
      which `bridgeIid` names (what firstIdentifierOf recovers). */
  datatype ProtocolIid = ProtocolIid(bridgeIid: BridgeIid, protocolKey: ProtocolId)

  datatype ProtocolEntry = ProtocolEntry(protocol: Option<ProtocolId>)

  datatype OvsdbBridge = OvsdbBridge(bridgeName: Option<string>)

  /** The observed state of the switch, as the command queries it. */
  datatype BridgeOperationalState = BridgeOperationalState(
    protocolEntries: map<ProtocolIid, ProtocolEntry>,
    bridges: map<BridgeIid, OvsdbBridge>)
  {
    function GetProtocolEntry(iid: ProtocolIid): Option<ProtocolEntry> {
      if iid in protocolEntries then Some(protocolEntries[iid]) else None
    }

    function GetOvsdbBridge(iid: BridgeIid): Option<OvsdbBridge> {
      if iid in bridges then Some(bridges[iid]) else None
    }
  }

  /** One entry of the created-or-updated protocol map; its value may be null. */
  datatype ProtocolItem = ProtocolItem(key: ProtocolIid, value: Option<ProtocolEntry>)

  /** The bridge an entry belongs to: the operational one, else the desired one. */
  function ResolveBridge(state: BridgeOperationalState, bridges: map<BridgeIid, OvsdbBridge>, iid: BridgeIid): Option<OvsdbBridge> {
    if iid in state.bridges then Some(state.bridges[iid])
    else if iid in bridges then Some(bridges[iid])
    else None
  }

  /** The mutate that adds `protocolString` to the "protocols" of the bridge named `bridgeName`. */
  function ProtocolMutation(bridgeName: string, protocolString: string): Op {
    Mutate("Bridge",
           [Mutation("protocols", SetInsert, SetOf({AString(protocolString)}))],
           [Condition("name", Equal, Scalar(AString(bridgeName)))])
  }

  /** What the command does for one entry. */
  function EntryRun(schema: DatabaseSchema, protocolMap: map<ProtocolId, string>, state: BridgeOperationalState,
                    bridges: map<BridgeIid, OvsdbBridge>, item: ProtocolItem): Run
  {
    if state.GetProtocolEntry(item.key).Some? then Done
    else
      var ovsdbBridge := ResolveBridge(state, bridges, item.key.bridgeIid);
      if ovsdbBridge.None? || ovsdbBridge.value.bridgeName.None?
         || item.value.None? || item.value.value.protocol.None? then Done
      else if item.value.value.protocol.value !in protocolMap then Done
      // setName stands outside the try block: its mismatch escapes the command
      else if !Supports(schema, "Bridge", "name") then Run([], Raised(SchemaVersionMismatch("Bridge", "name")))
      // setProtocols stands inside it: its mismatch skips this entry only
      else if !Supports(schema, "Bridge", "protocols") then Done
      else Run([ProtocolMutation(ovsdbBridge.value.bridgeName.value, protocolMap[item.value.value.protocol.value])], Completed)
  }

  /** What the command does for the entries, in iteration order. */
  function ProtocolOps(schema: DatabaseSchema, protocolMap: map<ProtocolId, string>, state: BridgeOperationalState,
                       protocols: seq<ProtocolItem>, bridges: map<BridgeIid, OvsdbBridge>): Run
    decreases |protocols|
  {
    if protocols == [] then Done
    else Then(EntryRun(schema, protocolMap, state, bridges, protocols[0]),
              ProtocolOps(schema, protocolMap, state, protocols[1..], bridges))
  }

  /** The entries can be processed in two parts, the second only if the first did not raise. */
  lemma {:induction false} ProtocolOpsAppend(schema: DatabaseSchema, protocolMap: map<ProtocolId, string>, state: BridgeOperationalState,
                                             xs: seq<ProtocolItem>, ys: seq<ProtocolItem>, bridges: map<BridgeIid, OvsdbBridge>)
    ensures ProtocolOps(schema, protocolMap, state, xs + ys, bridges)
         == Then(ProtocolOps(schema, protocolMap, state, xs, bridges), ProtocolOps(schema, protocolMap, state, ys, bridges))
    decreases |xs|
  {
    if xs == [] {
      assert xs + ys == ys;
    } else {
      assert (xs + ys)[0] == xs[0] && (xs + ys)[1..] == xs[1..] + ys;
      ProtocolOpsAppend(schema, protocolMap, state, xs[1..], ys, bridges);
      ThenAssociative(EntryRun(schema, protocolMap, state, bridges, xs[0]),
                      ProtocolOps(schema, protocolMap, state, xs[1..], bridges),
                      ProtocolOps(schema, protocolMap, state, ys, bridges));
    }
  }

  /** Processing one more entry appends its run. */
  lemma ProtocolOpsSnoc(schema: DatabaseSchema, protocolMap: map<ProtocolId, string>, state: BridgeOperationalState,
                        xs: seq<ProtocolItem>, item: ProtocolItem, bridges: map<BridgeIid, OvsdbBridge>)
    ensures ProtocolOps(schema, protocolMap, state, xs + [item], bridges)
         == Then(ProtocolOps(schema, protocolMap, state, xs, bridges), EntryRun(schema, protocolMap, state, bridges, item))
  {
    ProtocolOpsAppend(schema, protocolMap, state, xs, [item], bridges);
    var step := EntryRun(schema, protocolMap, state, bridges, item);
    assert ProtocolOps(schema, protocolMap, state, [item], bridges) == Then(step, Done);
    assert step.outcome == Completed ==> step.ops + [] == step.ops;
  }

  /** Idempotence: when the operational state already holds every entry, nothing is appended. */
  lemma {:induction false} ConvergedEntriesAppendNothing(schema: DatabaseSchema, protocolMap: map<ProtocolId, string>, state: BridgeOperationalState,
                                                         protocols: seq<ProtocolItem>, bridges: map<BridgeIid, OvsdbBridge>)
    requires forall k :: 0 <= k < |protocols| ==> protocols[k].key in state.protocolEntries
    ensures ProtocolOps(schema, protocolMap, state, protocols, bridges) == Run([], Completed)
    decreases |protocols|
  {
    if protocols != [] {
      ConvergedEntriesAppendNothing(schema, protocolMap, state, protocols[1..], bridges);
    }
  }

  /** An entry emits an operation exactly when it is missing from the operational
      state, its bridge resolves to one with a name, its protocol is set and has an
      OVSDB spelling, and the schema supports both columns; the operation then
      inserts that spelling into the protocols of the resolved bridge. */
  lemma EntryEmission(schema: DatabaseSchema, protocolMap: map<ProtocolId, string>, state: BridgeOperationalState,
                      bridges: map<BridgeIid, OvsdbBridge>, item: ProtocolItem)
    ensures var r := EntryRun(schema, protocolMap, state, bridges, item);
            |r.ops| <= 1 &&
            (r.ops != [] <==>
               item.key !in state.protocolEntries &&
               (var b := item.key.bridgeIid;
                (b in state.bridges ==> state.bridges[b].bridgeName.Some?) &&
                (b !in state.bridges ==> b in bridges && bridges[b].bridgeName.Some?)) &&
               item.value.Some? && item.value.value.protocol.Some? &&
               item.value.value.protocol.value in protocolMap &&
               Supports(schema, "Bridge", "name") && Supports(schema, "Bridge", "protocols")) &&
            (r.ops != [] ==>
               var b := item.key.bridgeIid;
               var source := if b in state.bridges then state.bridges[b] else bridges[b];
               r.ops[0] == ProtocolMutation(source.bridgeName.value, protocolMap[item.value.value.protocol.value]))
  {
  }

  /** An entry raises exactly when it gets as far as setName, which stands
      outside the try block, and the bridge's "name" column is unsupported: it is
      new, its bridge and bridge name are known, its protocol is set and mapped.
      It then appends nothing and the mismatch escapes. */
  lemma EntryRaises(schema: DatabaseSchema, protocolMap: map<ProtocolId, string>, state: BridgeOperationalState,
                    bridges: map<BridgeIid, OvsdbBridge>, item: ProtocolItem)
    ensures var r := EntryRun(schema, protocolMap, state, bridges, item);
            var ob := ResolveBridge(state, bridges, item.key.bridgeIid);
            (r.outcome != Completed <==>
               item.key !in state.protocolEntries && ob.Some? && ob.value.bridgeName.Some? &&
               item.value.Some? && item.value.value.protocol.Some? &&
               item.value.value.protocol.value in protocolMap && !Supports(schema, "Bridge", "name")) &&
            (r.outcome != Completed ==> r.ops == [] && r.outcome == Raised(SchemaVersionMismatch("Bridge", "name")))
  {
  }

  /** At most one operation per entry, each one a protocols insert on Bridge
      that some entry of the input produced. */
  lemma {:induction false} ProtocolOpsBounded(schema: DatabaseSchema, protocolMap: map<ProtocolId, string>, state: BridgeOperationalState,
                                              protocols: seq<ProtocolItem>, bridges: map<BridgeIid, OvsdbBridge>)
    ensures var r := ProtocolOps(schema, protocolMap, state, protocols, bridges);
            |r.ops| <= |protocols| &&
            forall k :: 0 <= k < |r.ops| ==>
              exists i :: 0 <= i < |protocols| && EntryRun(schema, protocolMap, state, bridges, protocols[i]).ops == [r.ops[k]]
    decreases |protocols|
  {
    if protocols != [] {
      var head := EntryRun(schema, protocolMap, state, bridges, protocols[0]);
      var tail := ProtocolOps(schema, protocolMap, state, protocols[1..], bridges);
      ProtocolOpsBounded(schema, protocolMap, state, protocols[1..], bridges);
      EntryEmission(schema, protocolMap, state, bridges, protocols[0]);
      var r := ProtocolOps(schema, protocolMap, state, protocols, bridges);
      forall k | 0 <= k < |r.ops|
        ensures exists i :: 0 <= i < |protocols| && EntryRun(schema, protocolMap, state, bridges, protocols[i]).ops == [r.ops[k]]
      {
        if k < |head.ops| {
          assert head.ops == [r.ops[k]];
        } else {
          var i :| 0 <= i < |protocols[1..]| && EntryRun(schema, protocolMap, state, bridges, protocols[1..][i]).ops == [tail.ops[k - |head.ops|]];
          assert protocols[1..][i] == protocols[i + 1];
        }
      }
    }
  }

  /** A schema with the bridge's "name" column but without "protocols": every
      entry that gets as far as setProtocols is skipped, none raises, and the
      command adds nothing to the transaction. */
  lemma {:induction false} ProtocolsUnsupportedAddsNothing(schema: DatabaseSchema, protocolMap: map<ProtocolId, string>,
                                                           state: BridgeOperationalState, protocols: seq<ProtocolItem>,
                                                           bridges: map<BridgeIid, OvsdbBridge>)
    requires Supports(schema, "Bridge", "name") && !Supports(schema, "Bridge", "protocols")
    ensures ProtocolOps(schema, protocolMap, state, protocols, bridges) == Run([], Completed)
    decreases |protocols|
  {
    if protocols != [] {
      ProtocolsUnsupportedAddsNothing(schema, protocolMap, state, protocols[1..], bridges);
    }
  }

  /** With the bridge's "name" column supported the command never raises. */
  lemma {:induction false} ProtocolOpsComplete(schema: DatabaseSchema, protocolMap: map<ProtocolId, string>, state: BridgeOperationalState,
                                               protocols: seq<ProtocolItem>, bridges: map<BridgeIid, OvsdbBridge>)
    requires Supports(schema, "Bridge", "name")
    ensures ProtocolOps(schema, protocolMap, state, protocols, bridges).outcome == Completed
    decreases |protocols|
  {
    if protocols != [] {
      ProtocolOpsComplete(schema, protocolMap, state, protocols[1..], bridges);
    }
  }

  lemma ProtocolMutationReferencesNothing(bridgeName: string, protocolString: string, name: string)
    ensures !References(ProtocolMutation(bridgeName, protocolString), name)
  {
  }

  /** The operations refer to no uuid-name, so appending them keeps a transaction's
      uuid-names in scope. */
  lemma ProtocolOpsKeepNamesInScope(schema: DatabaseSchema, protocolMap: map<ProtocolId, string>, state: BridgeOperationalState,
                                    protocols: seq<ProtocolItem>, bridges: map<BridgeIid, OvsdbBridge>, earlier: seq<Op>)
    requires NamesBoundBeforeUse(earlier)
    ensures NamesBoundBeforeUse(earlier + ProtocolOps(schema, protocolMap, state, protocols, bridges).ops)
  {
    var ops := ProtocolOps(schema, protocolMap, state, protocols, bridges).ops;
    ProtocolOpsBounded(schema, protocolMap, state, protocols, bridges);
    forall i, name | 0 <= i < |ops|
      ensures !References(ops[i], name)
    {
      var j :| 0 <= j < |protocols| && EntryRun(schema, protocolMap, state, bridges, protocols[j]).ops == [ops[i]];
      EntryEmission(schema, protocolMap, state, bridges, protocols[j]);
      var item := protocols[j];
      var b := item.key.bridgeIid;
      var source := if b in state.bridges then state.bridges[b] else bridges[b];
      ProtocolMutationReferencesNothing(source.bridgeName.value, protocolMap[item.value.value.protocol.value], name);
    }
    NamesBoundBeforeUseAppend(earlier, ops);
  }

  /** The body of the loop over entries: appends the operation of EntryRun, if any,
      and reports whether the entry raised. */
  method UpdateEntry(tx: TransactionBuilder, state: BridgeOperationalState, entry: ProtocolItem,
                     bridges: map<BridgeIid, OvsdbBridge>, protocolMap: map<ProtocolId, string>)
    returns (outcome: Outcome)
    modifies tx
    ensures tx.operations == old(tx.operations) + EntryRun(tx.schema, protocolMap, state, bridges, entry).ops
    ensures outcome == EntryRun(tx.schema, protocolMap, state, bridges, entry).outcome
  {
    outcome := Completed;
    var operational := state.GetProtocolEntry(entry.key);
    if operational.None? {
      var bridgeIid := entry.key.bridgeIid;
      var bridgeOptional := state.GetOvsdbBridge(bridgeIid);
      var ovsdbBridge: Option<OvsdbBridge>;
      if bridgeOptional.Some? {
        ovsdbBridge := bridgeOptional;
      } else {
        ovsdbBridge := if bridgeIid in bridges then Some(bridges[bridgeIid]) else None;
      }
      if ovsdbBridge.Some? && ovsdbBridge.value.bridgeName.Some?
         && entry.value.Some? && entry.value.value.protocol.Some? {
        var protocol := entry.value.value.protocol.value;
        if protocol in protocolMap {
          var protocolString := protocolMap[protocol];
          var bridge := new TypedRow(tx.schema, "Bridge");
          var ok := bridge.Set("name", Scalar(AString(ovsdbBridge.value.bridgeName.value)));
          if !ok {
            outcome := Raised(SchemaVersionMismatch("Bridge", "name"));
            return;
          }
          ok := bridge.Set("protocols", SetOf({AString(protocolString)}));
          if ok {
            tx.Add(Mutate("Bridge",
                          [Mutation("protocols", SetInsert, bridge.columns["protocols"])],
                          [Condition("name", Equal, bridge.columns["name"])]));
          }
        }
      }
    }
  }

  /** The shared core of both execute overloads: appends, in iteration order, the
      operations of ProtocolOps and reports how the command ended. */
  method Execute(tx: TransactionBuilder, state: BridgeOperationalState, protocols: seq<ProtocolItem>,
                 bridges: map<BridgeIid, OvsdbBridge>, protocolMap: map<ProtocolId, string>)
    returns (outcome: Outcome)
    modifies tx
    ensures tx.operations == old(tx.operations) + ProtocolOps(tx.schema, protocolMap, state, protocols, bridges).ops
    ensures outcome == ProtocolOps(tx.schema, protocolMap, state, protocols, bridges).outcome
  {
    for i := 0 to |protocols|
      invariant tx.operations == old(tx.operations) + ProtocolOps(tx.schema, protocolMap, state, protocols[..i], bridges).ops
      invariant ProtocolOps(tx.schema, protocolMap, state, protocols[..i], bridges).outcome == Completed
    {
      assert protocols[..i + 1] == protocols[..i] + [protocols[i]];
      ProtocolOpsSnoc(tx.schema, protocolMap, state, protocols[..i], protocols[i], bridges);
      outcome := UpdateEntry(tx, state, protocols[i], bridges, protocolMap);
      if outcome != Completed {
        ProtocolOpsAppend(tx.schema, protocolMap, state, protocols[..i + 1], protocols[i + 1..], bridges);
        assert protocols[..i + 1] + protocols[i + 1..] == protocols;
        return;
      }
    }
    assert protocols[..|protocols|] == protocols;
    outcome := Completed;
  }

  /** Both public execute overloads: the created-or-updated protocol entries and
      bridges are extracted from the change notification (`changes` is a data-change
      event for one overload, a collection of tree modifications for the other) and
      handed to the shared core. */
  method ExecuteChanges<C>(tx: TransactionBuilder, state: BridgeOperationalState, changes: C,
                           extractProtocols: C -> seq<ProtocolItem>,
                           extractBridges: C -> map<BridgeIid, OvsdbBridge>,
                           protocolMap: map<ProtocolId, string>)
    returns (outcome: Outcome)
    modifies tx
    ensures var r := ProtocolOps(tx.schema, protocolMap, state, extractProtocols(changes), extractBridges(changes));
            tx.operations == old(tx.operations) + r.ops && outcome == r.outcome
  {
    outcome := Execute(tx, state, extractProtocols(changes), extractBridges(changes), protocolMap);
  }
}
