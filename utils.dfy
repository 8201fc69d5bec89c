/**
 * The small helpers of src/utils.ts: the constant predicate `no`, `identity`,
 * the comma-separated key table `makeMap`, and the shallow record equality
 * `equalsRecord`.
 */
module Utils {

  datatype Option<T> = None | Some(value: T)

  /** An attribute value as the parser stores it: a string, or the literal
      `true` for an attribute written without a value. */
  datatype AttrValue = Str(s: string) | True

  /** `no`: the predicate that rejects everything. */
  function No(): (r: bool)
    ensures !r
  {
    false
  }

  /** `identity`: hands its argument back. */
  function Identity<T>(x: T): (r: T)
    ensures r == x
  {
    x
  }

  // ---------------------------------------------------------------------
  // `str.split(',')`
  // ---------------------------------------------------------------------

  /** Position of the first comma of `s`. */
  function IndexOfComma(s: string): (i: nat)
    requires ',' in s
    ensures i < |s| && s[i] == ','
    ensures ',' !in s[..i]
  {
    if s[0] == ',' then 0
    else
      var i := 1 + IndexOfComma(s[1..]);
      assert s[..i] == [s[0]] + s[1..][..i - 1];
      i
  }

  /** JavaScript's `s.split(',')`: the maximal comma-free pieces of `s`, in
      order; an empty string or two adjacent commas yield an empty piece. */
  function Split(s: string): (items: seq<string>)
    ensures |items| >= 1
    ensures forall k :: 0 <= k < |items| ==> ',' !in items[k]
    decreases |s|
  {
    if ',' !in s then [s]
    else
      var i := IndexOfComma(s);
      [s[..i]] + Split(s[i + 1..])
  }

  /** The inverse of `Split`: glue the pieces back with commas. */
  function Join(items: seq<string>): string
    requires |items| >= 1
  {
    if |items| == 1 then items[0] else items[0] + "," + Join(items[1..])
  }

  /** Splitting loses nothing: joining the pieces gives the string back. */
  lemma {:induction false} JoinSplit(s: string)
    ensures Join(Split(s)) == s
    decreases |s|
  {
    if ',' in s {
      var i := IndexOfComma(s);
      var rest := s[i + 1..];
      JoinSplit(rest);
      assert Split(s) == [s[..i]] + Split(rest);
      assert Split(s)[1..] == Split(rest);
      assert s == s[..i] + "," + rest;
    }
  }

  /** The first comma after a comma-free `head` is the one that follows it. */
  lemma FirstComma(head: string, rest: string)
    requires ',' !in head
    ensures ',' in head + "," + rest
    ensures IndexOfComma(head + "," + rest) == |head|
    ensures (head + "," + rest)[..|head|] == head && (head + "," + rest)[|head| + 1..] == rest
  {
    var s := head + "," + rest;
    assert s[|head|] == ',';
    assert s[..|head|] == head;
  }

  /** Splitting is the only way to get the pieces back: comma-free pieces
      joined with commas split into exactly those pieces. */
  lemma {:induction false} SplitJoin(items: seq<string>)
    requires |items| >= 1
    requires forall k :: 0 <= k < |items| ==> ',' !in items[k]
    ensures Split(Join(items)) == items
  {
    if |items| > 1 {
      var head, rest := items[0], Join(items[1..]);
      FirstComma(head, rest);
      SplitJoin(items[1..]);
      assert Split(Join(items)) == [head] + Split(rest);
    } else {
      assert Join(items) == items[0];
    }
  }

  // ---------------------------------------------------------------------
  // `toLowerCase` and `makeMap`
  // ---------------------------------------------------------------------

  function LowerChar(c: char): char
  {
    if 'A' <= c <= 'Z' then (c as int + 32) as char else c
  }

  /** `s` holds no ASCII capital. */
  predicate NoCapitals(s: string)
  {
    forall i :: 0 <= i < |s| ==> !('A' <= s[i] <= 'Z')
  }

  /** `key.toLowerCase()`, folding the ASCII letters: same length, no
      capital left, each capital replaced by its small letter and every
      other character kept. */
  function LowerAscii(s: string): (r: string)
    ensures |r| == |s| && NoCapitals(r)
    ensures forall i :: 0 <= i < |s| && 'A' <= s[i] <= 'Z' ==> r[i] as int - s[i] as int == 'a' as int - 'A' as int
    ensures forall i :: 0 <= i < |s| && !('A' <= s[i] <= 'Z') ==> r[i] == s[i]
  {
    seq(|s|, i requires 0 <= i < |s| => LowerChar(s[i]))
  }

  /** Lower-casing leaves a string without capitals unchanged. */
  lemma LowerAsciiOfLower(s: string)
    requires NoCapitals(s)
    ensures LowerAscii(s) == s
  {
  }

  /** The lookup closure that `makeMap` returns: the table of items and
      whether the key is lower-cased before the lookup. */
  datatype KeyTest = KeyTest(items: set<string>, expectsLowerCase: bool)
  {
    /** Without lower-casing a key is found iff it is an item; a key
        without capitals is found iff it is an item in either mode. */
    predicate Test(key: string): (r: bool)
      ensures !expectsLowerCase ==> (r <==> key in items)
      ensures NoCapitals(key) ==> (r <==> key in items)
    {
      var k := if expectsLowerCase then LowerAscii(key) else key;
      assert NoCapitals(key) ==> k == key;
      k in items
    }
  }

  /** `makeMap(str, expectsLowerCase)`: fills a table with the items of
      `str.split(',')` and answers whether a key is one of them; with
      `expectsLowerCase` the KEY is lower-cased, never the items. */
  method MakeMap(str: string, expectsLowerCase: bool) returns (test: KeyTest)
    ensures forall item :: item in test.items <==> item in Split(str)
    ensures test.expectsLowerCase == expectsLowerCase
    ensures forall key :: test.Test(key) <==>
      (if expectsLowerCase then LowerAscii(key) else key) in Split(str)
  {
    var table: set<string> := {};
    var list := Split(str);
    for i := 0 to |list|
      invariant forall item :: item in table <==> item in list[..i]
    {
      assert list[..i + 1] == list[..i] + [list[i]];
      table := table + {list[i]};
    }
    assert list[..|list|] == list;
    test := KeyTest(table, expectsLowerCase);
  }

  // ---------------------------------------------------------------------
  // `equalsRecord`
  // ---------------------------------------------------------------------

  /** `equalsRecord(a, b)`: the key counts agree, and the `&&`-reduce over
      the keys of `a` finds each of them in `b` with an identical value. */
  function EqualsRecord<V(==)>(a: map<string, V>, b: map<string, V>): (r: bool)
    ensures |a| != |b| ==> !r
  {
    |a| == |b| && forall key :: key in a ==> key in b && a[key] == b[key]
  }

  /** For finite maps the record comparison is exactly map equality. */
  lemma EqualsRecordIsEquality<V>(a: map<string, V>, b: map<string, V>)
    ensures EqualsRecord(a, b) <==> a == b
  {
    if EqualsRecord(a, b) {
      assert a.Keys <= b.Keys;
      var extra := b.Keys - a.Keys;
      assert |b.Keys| == |a.Keys| + |extra| by {
        assert b.Keys == a.Keys + extra;
        assert a.Keys * extra == {};
      }
      assert extra == {};
      assert a.Keys == b.Keys;
    }
  }

  /** Hence the record comparison is reflexive and symmetric. */
  lemma EqualsRecordReflexiveSymmetric<V>(a: map<string, V>, b: map<string, V>)
    ensures EqualsRecord(a, a)
    ensures EqualsRecord(a, b) == EqualsRecord(b, a)
  {
    EqualsRecordIsEquality(a, a);
    EqualsRecordIsEquality(a, b);
    EqualsRecordIsEquality(b, a);
  }
}
