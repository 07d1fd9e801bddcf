/**
 * The loaded MIB as the trap receiver sees it: the ordered list of symbols that
 * the MIB loader returns, and the direct OID lookup that scans it.
 */
module Mib {
  import opened Wrappers

  /** The value a MIB value symbol holds; only object-identifier values take part in lookups. */
  datatype Value = OidValue(oid: string) | OtherValue

  /** A MIB symbol: a value symbol with a name and a value, or any other kind (a type definition, ...). */
  datatype Symbol = ValueSymbol(name: string, value: Value) | OtherSymbol

  /** A symbol answers a lookup of `oid` when it is a value symbol whose OID value renders as `oid`. */
  predicate Matches(s: Symbol, oid: string)
  {
    s.ValueSymbol? && s.value.OidValue? && s.value.oid == oid
  }

  /** Symbol `i` is the first one in table order that answers a lookup of `oid`. */
  predicate IsFirstMatch(symbols: seq<Symbol>, oid: string, i: int)
  {
    0 <= i < |symbols| && Matches(symbols[i], oid) &&
    forall j :: 0 <= j < i ==> !Matches(symbols[j], oid)
  }

  /** Scans the symbols in order and gives the name of the first one that answers `oid`. */
  function ResolveDirectly(symbols: seq<Symbol>, oid: string): Option<string>
  {
    if |symbols| == 0 then None
    else if Matches(symbols[0], oid) then Some(symbols[0].name)
    else ResolveDirectly(symbols[1..], oid)
  }

  /** The lookup is absent exactly when no symbol of the table answers the OID. */
  lemma {:induction false} DirectNoneIff(symbols: seq<Symbol>, oid: string)
    ensures ResolveDirectly(symbols, oid).None? <==>
            forall i :: 0 <= i < |symbols| ==> !Matches(symbols[i], oid)
  {
    if |symbols| > 0 && !Matches(symbols[0], oid) {
      DirectNoneIff(symbols[1..], oid);
      if ResolveDirectly(symbols, oid).None? {
        forall i | 0 <= i < |symbols| ensures !Matches(symbols[i], oid) {
          if i > 0 { assert symbols[i] == symbols[1..][i - 1]; }
        }
      } else {
        var k :| 0 <= k < |symbols[1..]| && Matches(symbols[1..][k], oid);
        assert Matches(symbols[k + 1], oid);
      }
    }
  }

  /** An empty table never resolves anything. */
  lemma DirectEmptyTable(oid: string)
    ensures ResolveDirectly([], oid) == None
  {
  }

  /** The first matching symbol in table order wins, whatever later symbols hold. */
  lemma {:induction false} DirectFirstMatch(symbols: seq<Symbol>, oid: string, i: int)
    requires IsFirstMatch(symbols, oid, i)
    ensures ResolveDirectly(symbols, oid) == Some(symbols[i].name)
  {
    if i > 0 {
      assert !Matches(symbols[0], oid);
      assert symbols[1..][i - 1] == symbols[i];
      forall j | 0 <= j < i - 1 ensures !Matches(symbols[1..][j], oid) {
        assert symbols[1..][j] == symbols[j + 1];
      }
      DirectFirstMatch(symbols[1..], oid, i - 1);
    }
  }

  /** A present result is the name of the first matching symbol. */
  lemma {:induction false} DirectSomeIsFirstMatch(symbols: seq<Symbol>, oid: string)
    requires ResolveDirectly(symbols, oid).Some?
    ensures exists i :: IsFirstMatch(symbols, oid, i) &&
                        symbols[i].name == ResolveDirectly(symbols, oid).value
  {
    if Matches(symbols[0], oid) {
      assert IsFirstMatch(symbols, oid, 0);
    } else {
      DirectSomeIsFirstMatch(symbols[1..], oid);
      var k :| IsFirstMatch(symbols[1..], oid, k) &&
               symbols[1..][k].name == ResolveDirectly(symbols[1..], oid).value;
      forall j | 0 <= j < k + 1 ensures !Matches(symbols[j], oid) {
        if j > 0 { assert symbols[j] == symbols[1..][j - 1]; }
      }
      assert IsFirstMatch(symbols, oid, k + 1);
    }
  }
}
