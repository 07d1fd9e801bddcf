/**
 * OID-to-name resolution: the hard-coded sysUpTime override, then the direct
 * lookup, then one retry with a trailing ".0" instance suffix removed.
 */
module OidResolver {
  import opened Wrappers
  import opened Mib

  /** sysUpTime.0, which resolves without consulting the MIB. */
  const SysUpTimeOid := "1.3.6.1.2.1.1.3.0"
  const SysUpTimeName := "sysUpTime"

  /** The OID ends with the two characters ".0" (Java's endsWith(".0")). */
  predicate EndsWithInstanceZero(oid: string)
  {
    |oid| >= 2 && oid[|oid| - 2..] == ".0"
  }

  /** The OID with exactly its last two characters removed (substring(0, length - 2)). */
  function TrimInstanceZero(oid: string): (t: string)
    requires EndsWithInstanceZero(oid)
    ensures t + ".0" == oid
  {
    assert oid == oid[..|oid| - 2] + oid[|oid| - 2..];
    oid[..|oid| - 2]
  }

  /** Resolves `oid` to a display name, or None when no rule applies. */
  function ResolveOidToName(symbols: seq<Symbol>, oid: string): (r: Option<string>)
    ensures oid == SysUpTimeOid ==> r == Some(SysUpTimeName)
  {
    if oid == SysUpTimeOid then Some(SysUpTimeName)
    else match ResolveDirectly(symbols, oid)
      case Some(name) => Some(name)
      case None =>
        if EndsWithInstanceZero(oid) then ResolveDirectly(symbols, TrimInstanceZero(oid))
        else None
  }

  /** The override wins even over a first matching symbol that maps sysUpTime.0 to another name. */
  lemma SysUpTimeOverridesTable(symbols: seq<Symbol>, other: string, i: int)
    requires other != SysUpTimeName
    requires IsFirstMatch(symbols, SysUpTimeOid, i) && symbols[i].name == other
    ensures ResolveOidToName(symbols, SysUpTimeOid) == Some(SysUpTimeName)
    ensures ResolveDirectly(symbols, SysUpTimeOid) == Some(other)
  {
    DirectFirstMatch(symbols, SysUpTimeOid, i);
  }

  /** An OID some symbol answers resolves to the first such symbol's name. */
  lemma DirectHit(symbols: seq<Symbol>, oid: string, i: int)
    requires oid != SysUpTimeOid
    requires IsFirstMatch(symbols, oid, i)
    ensures ResolveOidToName(symbols, oid) == Some(symbols[i].name)
  {
    DirectFirstMatch(symbols, oid, i);
  }

  /** With no direct match, an OID ending in ".0" resolves as the OID without that suffix does. */
  lemma TrimFallback(symbols: seq<Symbol>, oid: string)
    requires oid != SysUpTimeOid
    requires forall i :: 0 <= i < |symbols| ==> !Matches(symbols[i], oid)
    requires EndsWithInstanceZero(oid)
    ensures ResolveOidToName(symbols, oid) == ResolveDirectly(symbols, TrimInstanceZero(oid))
  {
    DirectNoneIff(symbols, oid);
  }

  /** So for an instance X.0 that the table lacks, the first symbol for X gives the name. */
  lemma InstanceOfIndexedScalar(symbols: seq<Symbol>, x: string, i: int)
    requires x + ".0" != SysUpTimeOid
    requires forall j :: 0 <= j < |symbols| ==> !Matches(symbols[j], x + ".0")
    requires IsFirstMatch(symbols, x, i)
    ensures ResolveOidToName(symbols, x + ".0") == Some(symbols[i].name)
  {
    var oid := x + ".0";
    assert oid[|oid| - 2..] == ".0";
    assert TrimInstanceZero(oid) == x;
    TrimFallback(symbols, oid);
    DirectFirstMatch(symbols, x, i);
  }

  /** With no direct match and no ".0" suffix, the OID stays unresolved. */
  lemma NoSuffixUnresolved(symbols: seq<Symbol>, oid: string)
    requires oid != SysUpTimeOid
    requires forall i :: 0 <= i < |symbols| ==> !Matches(symbols[i], oid)
    requires !EndsWithInstanceZero(oid)
    ensures ResolveOidToName(symbols, oid) == None
  {
    DirectNoneIff(symbols, oid);
  }

  /**
   * Resolution fails exactly when the OID is not sysUpTime.0, no symbol answers it,
   * and either it has no ".0" suffix or no symbol answers it with the suffix removed.
   */
  lemma {:induction false} UnresolvedIff(symbols: seq<Symbol>, oid: string)
    ensures ResolveOidToName(symbols, oid).None? <==>
            oid != SysUpTimeOid &&
            (forall i :: 0 <= i < |symbols| ==> !Matches(symbols[i], oid)) &&
            (EndsWithInstanceZero(oid) ==>
               forall i :: 0 <= i < |symbols| ==> !Matches(symbols[i], TrimInstanceZero(oid)))
  {
    DirectNoneIff(symbols, oid);
    if EndsWithInstanceZero(oid) {
      DirectNoneIff(symbols, TrimInstanceZero(oid));
    }
  }

  /**
   * A present name is "sysUpTime" or the name of a symbol that answers the OID
   * itself or the OID with its single trailing ".0" removed.
   */
  lemma {:induction false} ResolvedProvenance(symbols: seq<Symbol>, oid: string)
    requires ResolveOidToName(symbols, oid).Some?
    ensures var name := ResolveOidToName(symbols, oid).value;
            name == SysUpTimeName ||
            exists i :: 0 <= i < |symbols| &&
                        (Matches(symbols[i], oid) ||
                         (EndsWithInstanceZero(oid) && Matches(symbols[i], TrimInstanceZero(oid)))) &&
                        symbols[i].name == name
  {
    if oid != SysUpTimeOid {
      if ResolveDirectly(symbols, oid).Some? {
        DirectSomeIsFirstMatch(symbols, oid);
      } else {
        DirectSomeIsFirstMatch(symbols, TrimInstanceZero(oid));
      }
    }
  }

  /** Only one ".0" is removed: X.0.0 does not reach a symbol that answers X alone. */
  lemma SingleTrimOnly(x: string, name: string)
    ensures ResolveOidToName([ValueSymbol(name, OidValue(x))], x + ".0.0") == None
  {
    var oid := x + ".0.0";
    var symbols := [ValueSymbol(name, OidValue(x))];
    assert |oid| == |x| + 4;
    if |oid| == |SysUpTimeOid| {
      assert oid[14] == '0' && SysUpTimeOid[14] == '3';
    }
    assert oid[|oid| - 2..] == ".0";
    assert TrimInstanceZero(oid) == x + ".0";
    assert symbols[1..] == [];
    assert |x + ".0"| != |x|;
    assert ResolveDirectly(symbols, oid) == None;
    assert ResolveDirectly(symbols, x + ".0") == None;
  }
}
