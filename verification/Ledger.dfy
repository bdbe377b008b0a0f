/** An exact token ledger: balances per key, moved, created and destroyed without loss. */
module Ledger {
  import opened Base

  /** A transfer fails on missing funds or when the receiver would overflow. */
  function Move<K(==)>(ledger: map<K, Balance>, from: K, to: K, amount: Balance): Option<map<K, Balance>> {
    var have, got := GetOrZero(ledger, from), GetOrZero(ledger, to);
    if have < amount then None
    else if from == to then Some(ledger)
    else if got + amount >= U128_LIMIT then None
    else Some(ledger[from := have - amount][to := got + amount])
  }

  function Credit<K(==)>(ledger: map<K, Balance>, to: K, amount: Balance): Option<map<K, Balance>> {
    var got := GetOrZero(ledger, to);
    if got + amount >= U128_LIMIT then None else Some(ledger[to := got + amount])
  }

  function Debit<K(==)>(ledger: map<K, Balance>, from: K, amount: Balance): Option<map<K, Balance>> {
    var have := GetOrZero(ledger, from);
    if have < amount then None else Some(ledger[from := have - amount])
  }
}
