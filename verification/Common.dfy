/** Option and Result, and the few facts about sequences that several modules share. */
module Common {

  datatype Option<+T> = None | Some(value: T)

  datatype Result<+T, +E> = Success(value: T) | Failure(error: E)

  ghost predicate NoDuplicates<T>(s: seq<T>) {
    forall i, j :: 0 <= i < j < |s| ==> s[i] != s[j]
  }

  function Elements<T>(s: seq<T>): set<T> {
    set x | x in s
  }

  /** Concatenation of a list of lists. */
  function Flatten<T>(parts: seq<seq<T>>): seq<T> {
    if parts == [] then [] else Flatten(parts[..|parts| - 1]) + parts[|parts| - 1]
  }

  /** A number in decimal. */
  function Digits(n: nat): string {
    (if n < 10 then "" else Digits(n / 10)) + [(n % 10) as char + '0']
  }

  lemma {:induction false} DigitsAreNumberChars(n: nat)
    ensures Digits(n) != "" && forall i :: 0 <= i < |Digits(n)| ==> '0' <= Digits(n)[i] <= '9'
  {
    if n >= 10 {
      DigitsAreNumberChars(n / 10);
    }
  }

  /** The number that a text of decimal digits stands for. */
  function DecimalValue(s: string): int {
    if s == "" then 0 else 10 * DecimalValue(s[..|s| - 1]) + (s[|s| - 1] as int - '0' as int)
  }

  /** The text stands for the number, in decimal digits and without a leading zero. */
  lemma {:induction false} DigitsMeaning(n: nat)
    ensures DecimalValue(Digits(n)) == n && Digits(n) != ""
    ensures forall i :: 0 <= i < |Digits(n)| ==> '0' <= Digits(n)[i] <= '9'
    ensures Digits(n)[0] == '0' ==> n == 0 && Digits(n) == "0"
  {
    DigitsAreNumberChars(n);
    var s := Digits(n);
    assert s[..|s| - 1] == (if n < 10 then "" else Digits(n / 10));
    if n >= 10 {
      DigitsMeaning(n / 10);
      assert s[0] == Digits(n / 10)[0];
    }
  }

  lemma DigitsInjective(m: nat, n: nat)
    requires Digits(m) == Digits(n)
    ensures m == n
  {
    DigitsMeaning(m);
    DigitsMeaning(n);
  }

  /** The sum of the weights of a list's elements. */
  function SumBy<T>(weight: T -> nat, s: seq<T>): nat {
    if s == [] then 0 else SumBy(weight, s[..|s| - 1]) + weight(s[|s| - 1])
  }

  /** Replacing one element changes the sum by the difference of its weights. */
  lemma {:induction false} SumByUpdate<T>(weight: T -> nat, s: seq<T>, i: nat, x: T)
    requires i < |s|
    ensures SumBy(weight, s[i := x]) == SumBy(weight, s) - weight(s[i]) + weight(x)
    decreases |s|
  {
    var n := |s| - 1;
    if i < n {
      SumByUpdate(weight, s[..n], i, x);
      assert s[i := x][..n] == s[..n][i := x];
    } else {
      assert s[i := x][..n] == s[..n];
    }
  }

  /** The pigeonhole principle: a list without repeats, drawn from a finite set, is no longer than the set. */
  lemma {:induction false} Pigeonhole<T>(s: seq<T>, pool: set<T>)
    requires NoDuplicates(s)
    requires forall x :: x in s ==> x in pool
    ensures |s| <= |pool|
  {
    if s != [] {
      var last := s[|s| - 1];
      var rest := s[..|s| - 1];
      assert last in pool;
      assert last !in rest;
      Pigeonhole(rest, pool - {last});
    }
  }

  /** A list without repeats has as many entries as distinct elements. */
  lemma {:induction false} NoDuplicatesSize<T>(s: seq<T>)
    requires NoDuplicates(s)
    ensures |Elements(s)| == |s|
  {
    if s == [] {
      assert Elements(s) == {};
    } else {
      var last := s[|s| - 1];
      var rest := s[..|s| - 1];
      NoDuplicatesSize(rest);
      assert last !in rest;
      assert Elements(s) == Elements(rest) + {last} by {
        forall x ensures x in Elements(s) <==> x in Elements(rest) + {last} {
          assert s == rest + [last];
        }
      }
    }
  }

  lemma {:induction false} SubsetSize<T>(a: set<T>, b: set<T>)
    requires a <= b
    ensures |a| <= |b|
  {
    if a != {} {
      var x :| x in a;
      SubsetSize(a - {x}, b - {x});
    }
  }

  lemma PrefixStep<T>(s: seq<T>, i: nat)
    requires i < |s|
    ensures s[..i + 1] == s[..i] + [s[i]] && s[..i + 1][..i] == s[..i]
    ensures i + 1 == |s| ==> s[..i + 1] == s
  {
  }

  lemma PrefixOfPrefix<T>(s: seq<T>, n: nat, k: nat)
    requires k <= n <= |s|
    ensures s[..n][..k] == s[..k]
    ensures k < n ==> s[..n][k] == s[k]
  {
  }

  lemma PrefixOfAppend<T>(s: seq<T>, x: T, k: nat)
    requires k <= |s|
    ensures (s + [x])[..k] == s[..k]
    ensures (s + [x])[k] == if k < |s| then s[k] else x
    ensures k == |s| ==> (s + [x])[..k] == s
  {
  }

  lemma ConcatLast<T>(a: seq<T>, b: seq<T>)
    requires b != []
    ensures a + b == (a + b[..|b| - 1]) + [b[|b| - 1]]
  {
  }

  lemma ConcatAssociates<T>(a: seq<T>, b: seq<T>, c: seq<T>)
    ensures (a + b) + c == a + (b + c)
  {
  }

  lemma ElementsAppend<T>(s: seq<T>, x: T)
    ensures Elements(s + [x]) == Elements(s) + {x}
  {
  }

  lemma Reassociate<T>(a: seq<T>, x: T, b: seq<T>, c: seq<T>)
    ensures (a + [x]) + (b + c) == (a + ([x] + b)) + c
  {
  }
}
