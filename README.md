# SNMP trap decoding core

A Dafny model of the trap-decoding core of `SnmpTrapReceiver`, a receiver that takes SNMP trap
notifications, resolves their numeric object identifiers (OIDs) to names from a loaded MIB, and
builds one JSON record per trap.

The model has three parts, one module each:

- `Mib`: the loaded MIB as an ordered list of symbols (`ValueSymbol(name, value)` or
  `OtherSymbol`; a value is `OidValue(oid)` or `OtherValue`). `ResolveDirectly` scans the list
  and returns the name of the **first** value symbol whose OID value equals the query. OIDs are
  opaque strings.
- `OidResolver`: `ResolveOidToName` maps `1.3.6.1.2.1.1.3.0` to `sysUpTime` without looking at
  the MIB. Otherwise it tries a direct lookup. If that fails and the OID ends in `.0`, it retries
  once with exactly those two characters removed. Otherwise the result is `None` (Java's `null`).
- `TrapProcessor`: the body of the consumer loop for one dequeued event. `ProcessTrap` is a
  method with the source's loop over the variable bindings. It updates a local parameter map and
  a local trap name, and it is proved equal to the functional specification `AssembleRecord`.
  The lemmas describe that specification:
  - The trap name starts as `Some("Unknown Trap")`.
  - Each binding with OID `1.3.6.1.6.3.1.1.4.1.0` overwrites the trap name with the resolution of
    its value, and that resolution may be `None`.
  - Every other binding is put under its resolved name, or under its raw OID when it does not
    resolve. The last write wins.
  - Finally, `"trapName"` is put.

The final `put("trapName", trapName)` is modelled as follows. A present name overwrites the
`"trapName"` key. A null name removes that key, because that is what org.json's `JSONObject.put`
does with a null value. So when the trap name is unresolved, the record has no `"trapName"`
entry at all.

Two consequences of the code are worth spelling out:
- An unresolved trap-identifier value makes the trap name null, so the record has no
  `"trapName"` entry. `"Unknown Trap"` remains only when no binding has OID
  `1.3.6.1.6.3.1.1.4.1.0` (SnmpTrapReceiver.java:62, 70, 78).
- When two symbols carry the same OID, the earlier one in table order wins (line 123).

## Model

| member | source | states |
|---|---|---|
| Mib.DirectNoneIff | com/cisco/SnmpTrapReceiver.java:115-129 | the direct lookup is absent exactly when no symbol is a value symbol with an OID value equal to the query; non-value symbols and non-OID values never match |
| Mib.DirectEmptyTable | com/cisco/SnmpTrapReceiver.java:116-128 | an empty symbol table resolves nothing |
| Mib.DirectFirstMatch | com/cisco/SnmpTrapReceiver.java:116-123 | the first matching symbol in table order gives the name, whatever later symbols hold |
| Mib.DirectSomeIsFirstMatch | com/cisco/SnmpTrapReceiver.java:116-123 | a present lookup result is the name of the first matching symbol |
| OidResolver.TrimInstanceZero | com/cisco/SnmpTrapReceiver.java:101-102 | the trimmed OID followed by ".0" is the original OID, so exactly the last two characters are removed |
| OidResolver.ResolveOidToName | com/cisco/SnmpTrapReceiver.java:91-113 | sysUpTime.0 resolves to "sysUpTime" for every symbol table |
| OidResolver.SysUpTimeOverridesTable | com/cisco/SnmpTrapReceiver.java:93-94 | the override wins even when the table's first match for sysUpTime.0, at any position, has a different name |
| OidResolver.DirectHit | com/cisco/SnmpTrapReceiver.java:96-99 | an OID that a symbol answers resolves to the first such symbol's name |
| OidResolver.TrimFallback | com/cisco/SnmpTrapReceiver.java:101-106 | with no direct match, an OID ending in ".0" resolves exactly as the direct lookup of the OID with its last two characters removed |
| OidResolver.InstanceOfIndexedScalar | com/cisco/SnmpTrapReceiver.java:96-106 | X.0 that the table lacks resolves to the name of the first symbol for X |
| OidResolver.NoSuffixUnresolved | com/cisco/SnmpTrapReceiver.java:101-112 | with no direct match and no ".0" suffix the result is absent |
| OidResolver.UnresolvedIff | com/cisco/SnmpTrapReceiver.java:91-113 | resolution is absent exactly when the OID is not sysUpTime.0, nothing answers it, and nothing answers its ".0"-trimmed form when it has one |
| OidResolver.ResolvedProvenance | com/cisco/SnmpTrapReceiver.java:93-106 | a present name is "sysUpTime" or the name of a symbol answering the OID or the OID with its one trailing ".0" removed |
| OidResolver.SingleTrimOnly | com/cisco/SnmpTrapReceiver.java:101-106 | only one ".0" is trimmed: X.0.0 does not resolve through a symbol for X |
| TrapProcessor.PutTrapName | com/cisco/SnmpTrapReceiver.java:78 | putting the trap name changes only the "trapName" key; that key is present exactly when the name is, and then it holds the name |
| TrapProcessor.ProcessTrap | com/cisco/SnmpTrapReceiver.java:59-78 | the loop over the bindings builds exactly the record the specification gives; a missing PDU gives no record and a present one a record |
| TrapProcessor.UnknownTrapWithoutIdentifier | com/cisco/SnmpTrapReceiver.java:62-70 | with no trap-identifier binding the trap name is "Unknown Trap" |
| TrapProcessor.TrapNameFromLastIdentifier | com/cisco/SnmpTrapReceiver.java:65-70 | otherwise the trap name is the resolution, possibly absent, of the value of the last trap-identifier binding |
| TrapProcessor.TrapIdentifierIsNoParam | com/cisco/SnmpTrapReceiver.java:69-74 | a trap-identifier binding at any position leaves the parameters unchanged |
| TrapProcessor.ParamKeysIff | com/cisco/SnmpTrapReceiver.java:65-74 | a key is a parameter exactly when some non-trap binding's resolved name, or raw OID if unresolved, is that key |
| TrapProcessor.ParamLastWriteWins | com/cisco/SnmpTrapReceiver.java:65-74 | a parameter holds the value of the last binding stored under its key |
| TrapProcessor.RecordEntries | com/cisco/SnmpTrapReceiver.java:65-78 | in the emitted record every key other than "trapName" holds the value of the last binding stored under it |
| TrapProcessor.NoOtherKeys | com/cisco/SnmpTrapReceiver.java:61-78 | no key besides "trapName" and the keys of non-trap bindings enters the record |
| TrapProcessor.TrapNameWrittenLast | com/cisco/SnmpTrapReceiver.java:73-78 | a present trap name overrides a parameter that resolved to the key "trapName" |
| TrapProcessor.ScenarioMyAlarm | com/cisco/SnmpTrapReceiver.java:59-78 | with only myAlarm in the table, the trap identifier names the trap "myAlarm" and the unresolved instance OID is kept as a raw key |
| TrapProcessor.ScenarioSysUpTime | com/cisco/SnmpTrapReceiver.java:72-73 | a sysUpTime.0 binding is stored under "sysUpTime" for any table, and the trap stays "Unknown Trap" |

## Left out

- `main`: MIB file loading, the UDP transport and `Snmp` session, the responder callback and the
  latch wait. These are I/O and library setup, so the symbol table and the bindings are
  parameters of the model.
- The `LinkedBlockingQueue` hand-off and the pool of three consumer threads. These are
  concurrency. Only the processing of one dequeued event is modelled; the infinite `take()` loop
  is not.
- `InterruptedException` handling and the catch-all `catch (Exception)` in the resolver. The
  model does not raise exceptions.
- Timestamp formatting and every console message, including "Could not resolve OID" and the
  pretty-printed JSON. These are output only.
- JSON key order and rendering. The record is a plain map plus the trap name.
- How mibble renders `ObjectIdentifierValue` and how snmp4j stringifies OIDs and variables. Both
  are taken as already-given strings.
