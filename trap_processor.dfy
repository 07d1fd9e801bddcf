/**
 * Assembly of one trap record from the variable bindings of a dequeued PDU:
 * the trap-identifier binding names the trap, every other binding becomes a
 * parameter keyed by its resolved name or, failing that, its raw OID.
 */
module TrapProcessor {
  import opened Wrappers
  import opened Mib
  import opened OidResolver

  /** snmpTrapOID.0, the binding whose value identifies the trap. */
  const TrapOid := "1.3.6.1.6.3.1.1.4.1.0"
  const UnknownTrap := "Unknown Trap"
  /** The record key under which the trap name is written last. */
  const TrapNameKey := "trapName"

  /** One variable binding, with its OID and value already rendered as strings. */
  datatype Binding = Binding(oid: string, value: string)

  /**
   * The emitted record: the JSON object's entries and the trap name that was put
   * under "trapName" (None when the resolver gave null).
   */
  datatype TrapRecord = TrapRecord(json: map<string, string>, trapName: Option<string>)

  /** The key a non-trap binding is stored under: its resolved name, else its raw OID. */
  function ParamKey(symbols: seq<Symbol>, oid: string): string
  {
    match ResolveOidToName(symbols, oid)
    case Some(name) => name
    case None => oid
  }

  /** Binding `i` is not the trap identifier and is stored under key `k`. */
  predicate IsParamAt(symbols: seq<Symbol>, bindings: seq<Binding>, i: int, k: string)
  {
    0 <= i < |bindings| && bindings[i].oid != TrapOid && ParamKey(symbols, bindings[i].oid) == k
  }

  /** The parameters after putting every non-trap binding in order into an empty object. */
  function Params(symbols: seq<Symbol>, bindings: seq<Binding>): map<string, string>
  {
    if bindings == [] then map[]
    else
      var before := Params(symbols, bindings[..|bindings| - 1]);
      var b := bindings[|bindings| - 1];
      if b.oid == TrapOid then before else before[ParamKey(symbols, b.oid) := b.value]
  }

  /** The trap name after the bindings: "Unknown Trap", overwritten by each trap-identifier binding. */
  function TrapNameOf(symbols: seq<Symbol>, bindings: seq<Binding>): Option<string>
  {
    if bindings == [] then Some(UnknownTrap)
    else
      var b := bindings[|bindings| - 1];
      if b.oid == TrapOid then ResolveOidToName(symbols, b.value)
      else TrapNameOf(symbols, bindings[..|bindings| - 1])
  }

  /**
   * The final put of the trap name: a present name overwrites the "trapName" key; a null
   * one removes that key, as org.json's put does for a null value.
   */
  function PutTrapName(params: map<string, string>, trapName: Option<string>): (m: map<string, string>)
    ensures m.Keys - {TrapNameKey} == params.Keys - {TrapNameKey}
    ensures forall k :: k in m && k != TrapNameKey ==> k in params && m[k] == params[k]
    ensures trapName.Some? <==> TrapNameKey in m
    ensures trapName.Some? ==> m[TrapNameKey] == trapName.value
  {
    match trapName
    case Some(name) => params[TrapNameKey := name]
    case None => params - {TrapNameKey}
  }

  /** The record a consumer builds for a PDU; no record for a missing PDU. */
  function AssembleRecord(symbols: seq<Symbol>, pdu: Option<seq<Binding>>): Option<TrapRecord>
  {
    match pdu
    case None => None
    case Some(bindings) =>
      var trapName := TrapNameOf(symbols, bindings);
      Some(TrapRecord(PutTrapName(Params(symbols, bindings), trapName), trapName))
  }

  /** The body of the consumer loop for one dequeued event. */
  method ProcessTrap(symbols: seq<Symbol>, pdu: Option<seq<Binding>>) returns (record: Option<TrapRecord>)
    ensures record.Some? <==> pdu.Some?
    ensures record == AssembleRecord(symbols, pdu)
  {
    if pdu.None? {
      return None;
    }
    var bindings := pdu.value;
    var trapJson: map<string, string> := map[];
    var trapName: Option<string> := Some(UnknownTrap);
    for i := 0 to |bindings|
      invariant trapJson == Params(symbols, bindings[..i])
      invariant trapName == TrapNameOf(symbols, bindings[..i])
    {
      assert bindings[..i + 1][..i] == bindings[..i];
      var vb := bindings[i];
      if vb.oid == TrapOid {
        trapName := ResolveOidToName(symbols, vb.value);
      } else {
        var paramName := ResolveOidToName(symbols, vb.oid);
        trapJson := trapJson[if paramName.Some? then paramName.value else vb.oid := vb.value];
      }
    }
    assert bindings[..|bindings|] == bindings;
    match trapName {
      case Some(name) => trapJson := trapJson[TrapNameKey := name];
      case None => trapJson := trapJson - {TrapNameKey};
    }
    record := Some(TrapRecord(trapJson, trapName));
  }

  /** Without a trap-identifier binding the trap keeps the name "Unknown Trap". */
  lemma {:induction false} UnknownTrapWithoutIdentifier(symbols: seq<Symbol>, bindings: seq<Binding>)
    requires forall i :: 0 <= i < |bindings| ==> bindings[i].oid != TrapOid
    ensures TrapNameOf(symbols, bindings) == Some(UnknownTrap)
  {
    if bindings != [] {
      var prefix := bindings[..|bindings| - 1];
      assert forall i :: 0 <= i < |prefix| ==> prefix[i] == bindings[i];
      UnknownTrapWithoutIdentifier(symbols, prefix);
    }
  }

  /** Otherwise the last trap-identifier binding names the trap by resolving its value, which may fail. */
  lemma {:induction false} TrapNameFromLastIdentifier(symbols: seq<Symbol>, bindings: seq<Binding>, i: int)
    requires 0 <= i < |bindings| && bindings[i].oid == TrapOid
    requires forall j :: i < j < |bindings| ==> bindings[j].oid != TrapOid
    ensures TrapNameOf(symbols, bindings) == ResolveOidToName(symbols, bindings[i].value)
  {
    if i < |bindings| - 1 {
      var prefix := bindings[..|bindings| - 1];
      assert forall j :: 0 <= j < |prefix| ==> prefix[j] == bindings[j];
      TrapNameFromLastIdentifier(symbols, prefix, i);
    }
  }

  /** A trap-identifier binding, wherever it stands, never adds or changes a parameter. */
  lemma {:induction false} TrapIdentifierIsNoParam(symbols: seq<Symbol>, pre: seq<Binding>, value: string, post: seq<Binding>)
    ensures Params(symbols, pre + [Binding(TrapOid, value)] + post) == Params(symbols, pre + post)
  {
    var all := pre + [Binding(TrapOid, value)] + post;
    if post == [] {
      assert all[..|all| - 1] == pre;
      assert pre + post == pre;
    } else {
      var front := post[..|post| - 1];
      assert all[..|all| - 1] == pre + [Binding(TrapOid, value)] + front;
      assert (pre + post)[..|pre + post| - 1] == pre + front;
      assert all[|all| - 1] == (pre + post)[|pre + post| - 1];
      TrapIdentifierIsNoParam(symbols, pre, value, front);
    }
  }

  /** A key is a parameter exactly when some non-trap binding is stored under it. */
  lemma {:induction false} ParamKeysIff(symbols: seq<Symbol>, bindings: seq<Binding>, k: string)
    ensures k in Params(symbols, bindings) <==> exists i :: IsParamAt(symbols, bindings, i, k)
  {
    if bindings != [] {
      var n := |bindings| - 1;
      var prefix := bindings[..n];
      ParamKeysIff(symbols, prefix, k);
      forall i | 0 <= i < n ensures IsParamAt(symbols, prefix, i, k) == IsParamAt(symbols, bindings, i, k) {
        assert prefix[i] == bindings[i];
      }
      if k in Params(symbols, bindings) && !IsParamAt(symbols, bindings, n, k) {
        var i :| IsParamAt(symbols, prefix, i, k);
        assert IsParamAt(symbols, bindings, i, k);
      }
      if exists i :: IsParamAt(symbols, bindings, i, k) {
        var i :| IsParamAt(symbols, bindings, i, k);
        if i < n {
          assert IsParamAt(symbols, prefix, i, k);
        }
      }
    }
  }

  /** The value stored under a key is that of the last binding stored under it (last write wins). */
  lemma {:induction false} ParamLastWriteWins(symbols: seq<Symbol>, bindings: seq<Binding>, i: int, k: string)
    requires IsParamAt(symbols, bindings, i, k)
    requires forall j :: i < j < |bindings| ==> !IsParamAt(symbols, bindings, j, k)
    ensures k in Params(symbols, bindings) && Params(symbols, bindings)[k] == bindings[i].value
  {
    var n := |bindings| - 1;
    var prefix := bindings[..n];
    if i < n {
      assert IsParamAt(symbols, prefix, i, k) by { assert prefix[i] == bindings[i]; }
      forall j | i < j < |prefix| ensures !IsParamAt(symbols, prefix, j, k) {
        assert prefix[j] == bindings[j];
        assert !IsParamAt(symbols, bindings, j, k);
      }
      ParamLastWriteWins(symbols, prefix, i, k);
      assert !IsParamAt(symbols, bindings, n, k);
    }
  }

  /**
   * The whole record: "trapName" holds the trap name (absent when it is null), every other
   * key is exactly one that a non-trap binding is stored under, holding the last such value.
   */
  lemma RecordEntries(symbols: seq<Symbol>, bindings: seq<Binding>, k: string, i: int)
    requires k != TrapNameKey
    requires IsParamAt(symbols, bindings, i, k)
    requires forall j :: i < j < |bindings| ==> !IsParamAt(symbols, bindings, j, k)
    ensures var r := AssembleRecord(symbols, Some(bindings)).value;
            k in r.json && r.json[k] == bindings[i].value
  {
    ParamLastWriteWins(symbols, bindings, i, k);
  }

  /** No key other than "trapName" and those of non-trap bindings enters the record. */
  lemma NoOtherKeys(symbols: seq<Symbol>, bindings: seq<Binding>, k: string)
    requires k != TrapNameKey
    requires forall i :: !IsParamAt(symbols, bindings, i, k)
    ensures k !in AssembleRecord(symbols, Some(bindings)).value.json
  {
    ParamKeysIff(symbols, bindings, k);
  }

  /** The trap name is written last, so it replaces a parameter that resolved to the key "trapName". */
  lemma TrapNameWrittenLast(symbols: seq<Symbol>, bindings: seq<Binding>, name: string)
    requires TrapNameOf(symbols, bindings) == Some(name)
    requires exists i :: IsParamAt(symbols, bindings, i, TrapNameKey)
    ensures TrapNameKey in Params(symbols, bindings)
    ensures AssembleRecord(symbols, Some(bindings)).value.json[TrapNameKey] == name
  {
    ParamKeysIff(symbols, bindings, TrapNameKey);
  }

  /**
   * A table holding only myAlarm: the trap is named by resolving the identifier's value, and an
   * instance OID that neither it nor its ".0"-trimmed form answers stays a raw key.
   */
  lemma ScenarioMyAlarm()
    ensures AssembleRecord(
              [ValueSymbol("myAlarm", OidValue("1.3.6.1.4.1.9.9.1"))],
              Some([Binding(TrapOid, "1.3.6.1.4.1.9.9.1"), Binding("1.3.6.1.4.1.9.9.2.0", "critical")]))
            == Some(TrapRecord(map["1.3.6.1.4.1.9.9.2.0" := "critical", TrapNameKey := "myAlarm"],
                               Some("myAlarm")))
  {
    var symbols := [ValueSymbol("myAlarm", OidValue("1.3.6.1.4.1.9.9.1"))];
    var b0 := Binding(TrapOid, "1.3.6.1.4.1.9.9.1");
    var b1 := Binding("1.3.6.1.4.1.9.9.2.0", "critical");
    var bindings := [b0, b1];
    assert bindings[..1] == [b0];
    assert [b0][..0] == [];
    DirectHit(symbols, "1.3.6.1.4.1.9.9.1", 0);
    assert TrapNameOf(symbols, bindings) == Some("myAlarm");
    assert EndsWithInstanceZero(b1.oid);
    assert TrimInstanceZero(b1.oid) == "1.3.6.1.4.1.9.9.2";
    MyAlarmInstanceUnresolved(symbols, b1.oid);
    assert ParamKey(symbols, b1.oid) == b1.oid;
    assert |b1.oid| != |TrapOid|;
    assert Params(symbols, [b0]) == map[];
    assert Params(symbols, bindings) == map[b1.oid := "critical"];
    assert |b1.oid| != |TrapNameKey|;
  }

  /** Helper for the scenario: the single myAlarm symbol answers neither ...9.2.0 nor ...9.2. */
  lemma MyAlarmInstanceUnresolved(symbols: seq<Symbol>, oid: string)
    requires symbols == [ValueSymbol("myAlarm", OidValue("1.3.6.1.4.1.9.9.1"))]
    requires oid == "1.3.6.1.4.1.9.9.2.0"
    ensures ResolveOidToName(symbols, oid) == None
  {
    assert EndsWithInstanceZero(oid);
    assert TrimInstanceZero(oid) == "1.3.6.1.4.1.9.9.2";
    assert symbols[1..] == [];
    assert |oid| != |"1.3.6.1.4.1.9.9.1"| && |oid| != |SysUpTimeOid|;
    assert !Matches(symbols[0], oid);
    assert ResolveDirectly(symbols, oid) == None;
    assert "1.3.6.1.4.1.9.9.2"[16] != "1.3.6.1.4.1.9.9.1"[16];
    assert !Matches(symbols[0], "1.3.6.1.4.1.9.9.2");
    assert ResolveDirectly(symbols, "1.3.6.1.4.1.9.9.2") == None;
  }

  /** A sysUpTime.0 binding is stored under "sysUpTime" whatever the table holds. */
  lemma ScenarioSysUpTime(symbols: seq<Symbol>)
    ensures AssembleRecord(symbols, Some([Binding(SysUpTimeOid, "123456")]))
            == Some(TrapRecord(map["sysUpTime" := "123456", TrapNameKey := UnknownTrap], Some(UnknownTrap)))
  {
    var bindings := [Binding(SysUpTimeOid, "123456")];
    assert bindings[..0] == [];
    assert |SysUpTimeOid| != |TrapOid|;
    assert ParamKey(symbols, SysUpTimeOid) == "sysUpTime";
    assert Params(symbols, bindings) == map["sysUpTime" := "123456"];
    assert TrapNameOf(symbols, bindings) == Some(UnknownTrap);
    assert "sysUpTime" != TrapNameKey;
  }
}
