/**
 * `generateTemporaryPassword`: one character from each of four alphabets, filled up to
 * the requested length from their union, then shuffled. `Math.random()` is an oracle:
 * the `k`-th call, scaled to an index below `n`, is `roll(k) % n`.
 */
module PasswordGenerator {

  const UPPER := "ABCDEFGHJKLMNPQRSTUVWXYZ"
  const LOWER := "abcdefghijkmnopqrstuvwxyz"
  const DIGITS := "23456789"
  const SYMBOLS := "!@#$%&*?-_"
  const ALPHABET := UPPER + LOWER + DIGITS + SYMBOLS

  /** The `length` parameter's default. */
  const DEFAULT_LENGTH := 12

  /** A character outside each of the four alphabets is outside their union. */
  lemma NotInAlphabet(c: char)
    requires c !in UPPER && c !in LOWER && c !in DIGITS && c !in SYMBOLS
    ensures c !in ALPHABET
  {
    assert ALPHABET == UPPER + LOWER + DIGITS + SYMBOLS;
  }

  lemma NoCapitalI()
    ensures 'I' !in ALPHABET
  {
    NotInAlphabet('I');
  }

  lemma NoCapitalO()
    ensures 'O' !in ALPHABET
  {
    NotInAlphabet('O');
  }

  lemma NoSmallL()
    ensures 'l' !in ALPHABET
  {
    NotInAlphabet('l');
  }

  lemma NoZero()
    ensures '0' !in ALPHABET
  {
    NotInAlphabet('0');
  }

  lemma NoOne()
    ensures '1' !in ALPHABET
  {
    NotInAlphabet('1');
  }

  /** The alphabets leave out the characters that read alike. */
  lemma NoLookAlikes()
    ensures 'I' !in ALPHABET && 'O' !in ALPHABET && 'l' !in ALPHABET
    ensures '0' !in ALPHABET && '1' !in ALPHABET
  {
    NoCapitalI();
    NoCapitalO();
    NoSmallL();
    NoZero();
    NoOne();
  }

  /** The length of the result: the requested one, but never fewer than four. */
  function PasswordLength(length: int): (n: nat)
    ensures n >= 4 && n >= length
    ensures n == 4 || n == length
  {
    if length < 4 then 4 else length
  }

  /** At least one character of each of the four alphabets. */
  predicate HasEachClass(pwd: string) {
    && (exists i :: 0 <= i < |pwd| && pwd[i] in UPPER)
    && (exists i :: 0 <= i < |pwd| && pwd[i] in LOWER)
    && (exists i :: 0 <= i < |pwd| && pwd[i] in DIGITS)
    && (exists i :: 0 <= i < |pwd| && pwd[i] in SYMBOLS)
  }

  predicate InAlphabet(pwd: string) {
    forall i :: 0 <= i < |pwd| ==> pwd[i] in ALPHABET
  }

  /** What the composition promises of any result for `length`. */
  predicate IsTemporaryPassword(pwd: string, length: int) {
    |pwd| == PasswordLength(length) && HasEachClass(pwd) && InAlphabet(pwd)
  }

  /**
   * Rearranging the characters keeps the composition: a shuffled password has the same
   * length, the same classes and the same alphabet as the one it came from.
   */
  lemma PermutationKeepsComposition(x: string, y: string, length: int)
    requires multiset(x) == multiset(y)
    requires IsTemporaryPassword(x, length)
    ensures IsTemporaryPassword(y, length)
  {
    assert |x| == |multiset(x)| == |multiset(y)| == |y|;
    forall c | c in x
      ensures c in y
    {
      assert c in multiset(x);
    }
    forall i | 0 <= i < |y|
      ensures y[i] in ALPHABET
    {
      assert y[i] in multiset(x);
    }
    var u :| 0 <= u < |x| && x[u] in UPPER;
    var l :| 0 <= l < |x| && x[l] in LOWER;
    var d :| 0 <= d < |x| && x[d] in DIGITS;
    var s :| 0 <= s < |x| && x[s] in SYMBOLS;
    assert x[u] in y && x[l] in y && x[d] in y && x[s] in y;
  }

  /**
   * The `pwd +=` part: one upper-case letter, one lower-case letter, one digit and one
   * symbol, then characters of the whole alphabet until `length` is reached. Returns
   * the next unused oracle call as well.
   */
  method Compose(length: int, roll: nat -> nat) returns (pwd: string, next: nat)
    ensures IsTemporaryPassword(pwd, length)
    ensures pwd[0] in UPPER && pwd[1] in LOWER && pwd[2] in DIGITS && pwd[3] in SYMBOLS
    ensures next == PasswordLength(length)
  {
    pwd := [UPPER[roll(0) % |UPPER|]];
    pwd := pwd + [LOWER[roll(1) % |LOWER|]];
    pwd := pwd + [DIGITS[roll(2) % |DIGITS|]];
    pwd := pwd + [SYMBOLS[roll(3) % |SYMBOLS|]];
    var i := |pwd|;
    while i < length
      invariant 4 <= i <= PasswordLength(length) && |pwd| == i
      invariant pwd[0] in UPPER && pwd[1] in LOWER && pwd[2] in DIGITS && pwd[3] in SYMBOLS
      invariant InAlphabet(pwd)
    {
      pwd := pwd + [ALPHABET[roll(i) % |ALPHABET|]];
      i := i + 1;
    }
    next := i;
  }

  /**
   * The final `sort(() => Math.random() - 0.5)`: a Fisher-Yates pass driven by the
   * oracle, from call `first` on. Whatever the draws, the characters are only rearranged.
   */
  method Shuffle(a: array<char>, roll: nat -> nat, first: nat)
    modifies a
    ensures multiset(a[..]) == multiset(old(a[..]))
  {
    var i := a.Length;
    while i > 1
      invariant 0 <= i <= a.Length
      invariant multiset(a[..]) == multiset(old(a[..]))
    {
      var j := roll(first + a.Length - i) % i;
      a[i - 1], a[j] := a[j], a[i - 1];
      i := i - 1;
    }
  }

  /** `generateTemporaryPassword(length)`. */
  method GenerateTemporaryPassword(length: int, roll: nat -> nat) returns (pwd: string)
    ensures IsTemporaryPassword(pwd, length)
  {
    var built, next := Compose(length, roll);
    var a := new char[|built|](k requires 0 <= k < |built| => built[k]);
    assert a[..] == built;
    Shuffle(a, roll, next);
    pwd := a[..];
    PermutationKeepsComposition(built, pwd, length);
  }
}
