/** What every component shares. */
module Basics {
  datatype Option<+T> = None | Some(value: T)

  datatype Result<+T, +E> = Ok(value: T) | Err(error: E)

  /** Which operations of the outside world fail, by their number. */
  type Schedule = nat -> bool

  /** How many of the first `n` operations fail. */
  ghost function FaultsBefore(fails: Schedule, n: nat): nat {
    if n == 0 then 0 else FaultsBefore(fails, n - 1) + (if fails(n - 1) then 1 else 0)
  }

  /** Between the two operation counts exactly one operation failed, or none. */
  ghost predicate Counted(fails: Schedule, before: nat, after: nat, failed: bool) {
    FaultsBefore(fails, after) == FaultsBefore(fails, before) + (if failed then 1 else 0)
  }

  lemma TakeOneMore<T>(s: seq<T>, i: nat)
    requires i < |s|
    ensures s[..i + 1] == s[..i] + [s[i]]
  {
  }

  function IndexOf(s: string, c: char): (k: nat)
    ensures k <= |s|
    ensures k < |s| ==> s[k] == c
    ensures c !in s[..k]
  {
    if s == [] || s[0] == c then 0 else 1 + IndexOf(s[1..], c)
  }

  lemma {:induction false} IndexOfFirst(prefix: string, c: char, suffix: string)
    requires c !in prefix
    ensures IndexOf(prefix + [c] + suffix, c) == |prefix|
  {
    var s := prefix + [c] + suffix;
    if prefix != [] {
      assert s[1..] == prefix[1..] + [c] + suffix;
      IndexOfFirst(prefix[1..], c, suffix);
    }
  }
}
