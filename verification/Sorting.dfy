/**
 Text order, a stable sort, counting, separators and decimal numerals, as the data-export code uses
 them from the standard library.
 */
module Sorting {

  // ---------------------------------------------------------------- text order

  predicate TextLe(a: string, b: string) {
    a == [] || (b != [] && (a[0] < b[0] || (a[0] == b[0] && TextLe(a[1..], b[1..]))))
  }

  lemma {:induction false} TextTotal(a: string, b: string)
    ensures TextLe(a, b) || TextLe(b, a)
    ensures TextLe(a, b) && TextLe(b, a) ==> a == b
    decreases |a|
  {
    if a != [] && b != [] && a[0] == b[0] {
      TextTotal(a[1..], b[1..]);
      assert a == [a[0]] + a[1..] && b == [b[0]] + b[1..];
    }
  }

  lemma {:induction false} TextTransitive(a: string, b: string, c: string)
    requires TextLe(a, b) && TextLe(b, c)
    ensures TextLe(a, c)
    decreases |a|
  {
    if a != [] && b != [] && c != [] && a[0] == b[0] == c[0] { TextTransitive(a[1..], b[1..], c[1..]); }
  }

  /** A sort key: a first text, and a second one among equal first ones. */
  type Key = (string, string)

  predicate KeyLe(a: Key, b: Key) {
    if a.0 == b.0 then TextLe(a.1, b.1) else TextLe(a.0, b.0)
  }

  lemma KeyTotal(a: Key, b: Key)
    ensures KeyLe(a, b) || KeyLe(b, a)
    ensures KeyLe(a, b) && KeyLe(b, a) ==> a == b
  {
    TextTotal(a.0, b.0);
    TextTotal(a.1, b.1);
  }

  lemma KeyTransitive(a: Key, b: Key, c: Key)
    requires KeyLe(a, b) && KeyLe(b, c)
    ensures KeyLe(a, c)
  {
    if a.0 == b.0 == c.0 {
      TextTransitive(a.1, b.1, c.1);
    } else if a.0 != b.0 && b.0 != c.0 {
      TextTransitive(a.0, b.0, c.0);
      if a.0 == c.0 { TextTotal(a.0, b.0); }
    }
  }

  // ---------------------------------------------------------------- stable sort

  function InsertBy<T>(x: T, s: seq<T>, key: T -> Key): seq<T> {
    if s == [] || KeyLe(key(x), key(s[0])) then [x] + s else [s[0]] + InsertBy(x, s[1..], key)
  }

  function SortBy<T>(s: seq<T>, key: T -> Key): seq<T> {
    if s == [] then [] else InsertBy(s[0], SortBy(s[1..], key), key)
  }

  predicate Sorted<T>(s: seq<T>, key: T -> Key) {
    forall i, j :: 0 <= i < j < |s| ==> KeyLe(key(s[i]), key(s[j]))
  }

  /** The elements with one key, in order. */
  function Among<T>(s: seq<T>, key: T -> Key, k: Key): seq<T> {
    if s == [] then [] else (if key(s[0]) == k then [s[0]] else []) + Among(s[1..], key, k)
  }

  lemma {:induction false} InsertElements<T>(x: T, s: seq<T>, key: T -> Key)
    ensures multiset(InsertBy(x, s, key)) == multiset{x} + multiset(s)
    decreases |s|
  {
    if s != [] && !KeyLe(key(x), key(s[0])) {
      InsertElements(x, s[1..], key);
      assert s == [s[0]] + s[1..];
    }
  }

  lemma {:induction false} InsertStable<T>(x: T, s: seq<T>, key: T -> Key, k: Key)
    ensures Among(InsertBy(x, s, key), key, k) == (if key(x) == k then [x] else []) + Among(s, key, k)
    decreases |s|
  {
    var out := InsertBy(x, s, key);
    if s == [] || KeyLe(key(x), key(s[0])) {
      assert out[1..] == s;
    } else {
      InsertStable(x, s[1..], key, k);
      assert out[1..] == InsertBy(x, s[1..], key);
      KeyTotal(key(x), key(s[0]));
      KeyTotal(key(x), key(x));
    }
  }

  lemma {:induction false} InsertSorts<T>(x: T, s: seq<T>, key: T -> Key)
    requires Sorted(s, key)
    ensures Sorted(InsertBy(x, s, key), key)
    decreases |s|
  {
    if s == [] {
    } else if KeyLe(key(x), key(s[0])) {
      forall j | 0 <= j < |s| ensures KeyLe(key(x), key(s[j])) {
        if j > 0 { KeyTransitive(key(x), key(s[0]), key(s[j])); }
      }
    } else {
      var rest := InsertBy(x, s[1..], key);
      InsertSorts(x, s[1..], key);
      InsertElements(x, s[1..], key);
      KeyTotal(key(x), key(s[0]));
      forall j | 0 <= j < |rest| ensures KeyLe(key(s[0]), key(rest[j])) {
        assert rest[j] in multiset(rest);
        if rest[j] != x {
          assert rest[j] in s[1..];
          var i :| 0 <= i < |s[1..]| && s[1..][i] == rest[j];
          assert s[i + 1] == rest[j];
        }
      }
    }
  }

  /** The sort is stable: it orders by key and keeps the elements of every key in their order. */
  lemma {:induction false} SortSorts<T>(s: seq<T>, key: T -> Key)
    ensures Sorted(SortBy(s, key), key)
    ensures multiset(SortBy(s, key)) == multiset(s)
    ensures forall k :: Among(SortBy(s, key), key, k) == Among(s, key, k)
  {
    if s == [] {
    } else {
      SortSorts(s[1..], key);
      var rest := SortBy(s[1..], key);
      InsertSorts(s[0], rest, key);
      InsertElements(s[0], rest, key);
      forall k ensures Among(SortBy(s, key), key, k) == Among(s, key, k) { InsertStable(s[0], rest, key, k); }
      assert s == [s[0]] + s[1..];
    }
  }

  lemma {:induction false} AmongMember<T>(s: seq<T>, key: T -> Key, k: Key)
    ensures Among(s, key, k) != [] ==> exists i :: 0 <= i < |s| && key(s[i]) == k
    ensures forall i :: 0 <= i < |s| && key(s[i]) == k ==> s[i] in Among(s, key, k)
    ensures forall x :: x in Among(s, key, k) ==> key(x) == k
  {
    if s == [] {
    } else {
      AmongMember(s[1..], key, k);
      assert forall i :: 0 < i < |s| ==> s[i] == s[1..][i - 1];
    }
  }

  lemma SortedHeads<T>(a: seq<T>, b: seq<T>, key: T -> Key)
    requires Sorted(a, key) && Sorted(b, key) && a != [] && b != []
    requires forall k :: Among(a, key, k) == Among(b, key, k)
    ensures a[0] == b[0]
  {
    var ka, kb := key(a[0]), key(b[0]);
    AmongMember(b, key, ka);
    AmongMember(a, key, kb);
    assert Among(a, key, ka) != [] && Among(b, key, kb) != [];
    var i :| 0 <= i < |b| && key(b[i]) == ka;
    var j :| 0 <= j < |a| && key(a[j]) == kb;
    KeyTotal(ka, ka);
    KeyTotal(ka, kb);
    assert Among(a, key, ka)[0] == a[0] && Among(b, key, ka)[0] == b[0];
  }

  lemma SameEmptiness<T>(a: seq<T>, b: seq<T>, key: T -> Key)
    requires forall k :: Among(a, key, k) == Among(b, key, k)
    ensures a == [] ==> b == []
  {
    assert b != [] ==> Among(b, key, key(b[0])) != [];
  }

  /** A sorted sequence is determined by its elements of each key. */
  lemma {:induction false} SortedUnique<T>(a: seq<T>, b: seq<T>, key: T -> Key)
    requires Sorted(a, key) && Sorted(b, key)
    requires forall k :: Among(a, key, k) == Among(b, key, k)
    ensures a == b
    decreases |a|
  {
    SameEmptiness(a, b, key);
    SameEmptiness(b, a, key);
    if a == [] {
    } else {
      SortedHeads(a, b, key);
      forall k ensures Among(a[1..], key, k) == Among(b[1..], key, k) { AmongTail(a, b, key, k); }
      SortedUnique(a[1..], b[1..], key);
      assert a == [a[0]] + a[1..] && b == [b[0]] + b[1..];
    }
  }

  lemma AmongTail<T>(a: seq<T>, b: seq<T>, key: T -> Key, k: Key)
    requires a != [] && b != [] && a[0] == b[0] && Among(a, key, k) == Among(b, key, k)
    ensures Among(a[1..], key, k) == Among(b[1..], key, k)
  {
    var here := if key(a[0]) == k then [a[0]] else [];
    assert Among(a[1..], key, k) == Among(a, key, k)[|here|..];
    assert Among(b[1..], key, k) == Among(b, key, k)[|here|..];
  }

  lemma SameClassesSameSort<T>(a: seq<T>, b: seq<T>, key: T -> Key)
    requires forall k :: Among(a, key, k) == Among(b, key, k)
    ensures SortBy(a, key) == SortBy(b, key)
  {
    SortSorts(a, key);
    SortSorts(b, key);
    SortedUnique(SortBy(a, key), SortBy(b, key), key);
  }

  lemma {:induction false} AmongConcat<T>(a: seq<T>, b: seq<T>, key: T -> Key, k: Key)
    ensures Among(a + b, key, k) == Among(a, key, k) + Among(b, key, k)
    decreases |a|
  {
    if a == [] {
      assert a + b == b;
    } else {
      assert (a + b)[1..] == a[1..] + b;
      AmongConcat(a[1..], b, key, k);
    }
  }

  lemma {:induction false} AmongCount<T>(s: seq<T>, key: T -> Key, k: Key, x: T)
    requires key(x) == k
    ensures multiset(Among(s, key, k))[x] == multiset(s)[x]
  {
    if s == [] {
    } else {
      AmongCount(s[1..], key, k, x);
      assert s == [s[0]] + s[1..];
    }
  }

  /** Where equal keys mean equal elements, the elements of a key are determined by the multiset. */
  lemma PermutedClasses<T>(a: seq<T>, b: seq<T>, key: T -> Key, k: Key)
    requires multiset(a) == multiset(b)
    requires forall x, y :: x in a && y in a && key(x) == key(y) ==> x == y
    ensures Among(a, key, k) == Among(b, key, k)
  {
    SameElements(a, b);
    if x :| x in a && key(x) == k {
      ClassIsUniform(a, key, k, x);
      ClassIsUniform(b, key, k, x);
    } else {
      AmongMember(a, key, k);
      AmongMember(b, key, k);
    }
  }

  lemma ClassIsUniform<T>(s: seq<T>, key: T -> Key, k: Key, x: T)
    requires key(x) == k && forall y :: y in s && key(y) == k ==> y == x
    ensures |Among(s, key, k)| == multiset(s)[x]
    ensures forall i :: 0 <= i < |Among(s, key, k)| ==> Among(s, key, k)[i] == x
  {
    var p := Among(s, key, k);
    AmongMember(s, key, k);
    AmongElements(s, key, k);
    assert forall i :: 0 <= i < |p| ==> p[i] in p && p[i] == x;
    AmongCount(s, key, k, x);
    Uniform(p, x);
  }

  lemma SameElements<T>(a: seq<T>, b: seq<T>)
    requires multiset(a) == multiset(b)
    ensures forall x :: x in b ==> x in a
  {
    forall x | x in b ensures x in a {
      assert x in multiset(b);
      assert x in multiset(a);
    }
  }

  lemma {:induction false} AmongElements<T>(s: seq<T>, key: T -> Key, k: Key)
    ensures forall x :: x in Among(s, key, k) ==> x in s
  {
    if s == [] {
    } else {
      AmongElements(s[1..], key, k);
    }
  }

  lemma {:induction false} Uniform<T>(s: seq<T>, x: T)
    requires forall i :: 0 <= i < |s| ==> s[i] == x
    ensures |s| == multiset(s)[x]
  {
    if s == [] {
    } else {
      Uniform(s[1..], x);
      assert s == [s[0]] + s[1..];
    }
  }

  // ---------------------------------------------------------------- counting

  function CountBy<T>(s: seq<T>, p: T -> bool): nat {
    if s == [] then 0 else CountBy(s[..|s| - 1], p) + if p(s[|s| - 1]) then 1 else 0
  }

  lemma {:induction false} CountConcat<T>(a: seq<T>, b: seq<T>, p: T -> bool)
    ensures CountBy(a + b, p) == CountBy(a, p) + CountBy(b, p)
    decreases |b|
  {
    if b == [] {
      assert a + b == a;
    } else {
      assert (a + b)[..|a + b| - 1] == a + b[..|b| - 1];
      CountConcat(a, b[..|b| - 1], p);
    }
  }

  lemma {:induction false} CountWithout<T>(s: seq<T>, j: nat, p: T -> bool)
    requires j < |s|
    ensures CountBy(s, p) == CountBy(s[..j] + s[j + 1..], p) + if p(s[j]) then 1 else 0
    decreases |s|
  {
    var front, without := s[..|s| - 1], s[..j] + s[j + 1..];
    if j == |front| {
      assert without == front;
    } else {
      CountWithout(front, j, p);
      assert without[..|without| - 1] == front[..j] + front[j + 1..];
    }
  }

  lemma ElementsWithout<T>(s: seq<T>, j: nat)
    requires j < |s|
    ensures multiset(s[..j] + s[j + 1..]) == multiset(s) - multiset{s[j]}
  {
    assert s == s[..j] + ([s[j]] + s[j + 1..]);
  }

  /** Counting does not depend on order. */
  lemma {:induction false} CountPermuted<T>(a: seq<T>, b: seq<T>, p: T -> bool)
    requires multiset(a) == multiset(b)
    ensures CountBy(a, p) == CountBy(b, p)
    decreases |a|
  {
    if a == [] {
      assert |multiset(b)| == 0;
    } else {
      var last := |a| - 1;
      assert a[..last] + a[last + 1..] == a[..last];
      ElementsWithout(a, last);
      assert a[last] in multiset(b);
      var j :| 0 <= j < |b| && b[j] == a[last];
      CountWithout(b, j, p);
      ElementsWithout(b, j);
      CountPermuted(a[..last], b[..j] + b[j + 1..], p);
    }
  }

  // ---------------------------------------------------------------- repetition

  predicate Unrepeated<T>(s: seq<T>, name: T -> string) {
    forall i, j :: 0 <= i < j < |s| ==> name(s[i]) != name(s[j])
  }

  lemma {:induction false} OneOrMore<T>(s: seq<T>, p: T -> bool, i: nat)
    requires i < |s| && p(s[i])
    ensures CountBy(s, p) >= 1
  {
    if i < |s| - 1 { OneOrMore(s[..|s| - 1], p, i); }
  }

  lemma {:induction false} TwoOrMore<T>(s: seq<T>, p: T -> bool, i: nat, j: nat)
    requires i < j < |s| && p(s[i]) && p(s[j])
    ensures CountBy(s, p) >= 2
  {
    var front := s[..|s| - 1];
    if j == |s| - 1 { OneOrMore(front, p, i); } else { TwoOrMore(front, p, i, j); }
  }

  lemma {:induction false} OneAtMost<T>(s: seq<T>, p: T -> bool)
    requires forall i, j :: 0 <= i < j < |s| ==> !p(s[i]) || !p(s[j])
    ensures CountBy(s, p) <= 1
    ensures CountBy(s, p) == 1 ==> exists i :: 0 <= i < |s| && p(s[i])
  {
    if s == [] {
    } else {
      var front := s[..|s| - 1];
      OneAtMost(front, p);
      assert forall i :: 0 <= i < |front| ==> front[i] == s[i];
    }
  }

  /** Names that do not repeat do not repeat in another order either. */
  lemma UnrepeatedPermuted<T>(a: seq<T>, b: seq<T>, name: T -> string)
    requires multiset(a) == multiset(b) && Unrepeated(a, name)
    ensures Unrepeated(b, name)
  {
    forall i, j | 0 <= i < j < |b| ensures name(b[i]) != name(b[j]) {
      if name(b[i]) == name(b[j]) {
        var text := name(b[i]);
        var same := x => name(x) == text;
        TwoOrMore(b, same, i, j);
        CountPermuted(a, b, same);
        OneAtMost(a, same);
        assert false;
      }
    }
  }

  // ---------------------------------------------------------------- separators

  predicate Lacks(s: string, c: char) {
    forall i :: 0 <= i < |s| ==> s[i] != c
  }

  /** A text that lacks the separator is cut off at the first one. */
  lemma {:induction false} CutAt(u: string, v: string, separator: char, s: string, t: string)
    requires Lacks(u, separator) && Lacks(v, separator)
    requires u + ([separator] + s) == v + ([separator] + t)
    ensures u == v && s == t
    decreases |u|
  {
    var a, b := u + ([separator] + s), v + ([separator] + t);
    assert a[0] == b[0];
    if u == [] || v == [] {
      assert u == v == [];
      assert s == a[1..] && t == b[1..];
    } else {
      assert u[1..] + ([separator] + s) == a[1..] && v[1..] + ([separator] + t) == b[1..];
      CutAt(u[1..], v[1..], separator, s, t);
      assert u == [u[0]] + u[1..] && v == [v[0]] + v[1..];
    }
  }

  // ---------------------------------------------------------------- decimal numerals

  function Digit(n: nat): char
    requires n < 10
  {
    ("0123456789")[n]
  }

  function Decimal(n: nat): (s: string)
    ensures s != []
  {
    if n < 10 then [Digit(n)] else Decimal(n / 10) + [Digit(n % 10)]
  }

  lemma {:induction false} DecimalInjective(m: nat, n: nat)
    requires Decimal(m) == Decimal(n)
    ensures m == n
    decreases m
  {
    var a, b := Decimal(m), Decimal(n);
    assert a[|a| - 1] == Digit(m % 10) && b[|b| - 1] == Digit(n % 10);
    if m >= 10 && n >= 10 {
      assert Decimal(m / 10) == a[..|a| - 1] && Decimal(n / 10) == b[..|b| - 1];
      DecimalInjective(m / 10, n / 10);
    }
  }

  lemma {:induction false} DecimalDigits(n: nat)
    ensures forall i :: 0 <= i < |Decimal(n)| ==> '0' <= Decimal(n)[i] <= '9'
  {
    if n >= 10 { DecimalDigits(n / 10); }
  }
}
