/** The JavaScript string operations the handlers rely on: `trim`,
    `toLowerCase`, `includes`, and the ascending text order a database
    `orderBy` applies to a text column. */
module Text {

  /** The characters `String.prototype.trim` removes: the ECMAScript
      WhiteSpace and LineTerminator code points. */
  predicate IsJsWhitespace(c: char) {
    var n := c as int;
    (0x09 <= n <= 0x0D) || n == 0x20 || n == 0xA0 || n == 0x1680 ||
    (0x2000 <= n <= 0x200A) || n == 0x2028 || n == 0x2029 || n == 0x202F ||
    n == 0x205F || n == 0x3000 || n == 0xFEFF
  }

  function TrimStart(s: string): (r: string)
    ensures |r| <= |s| && r == s[|s| - |r|..]
    ensures r == [] || !IsJsWhitespace(r[0])
    ensures forall i :: 0 <= i < |s| - |r| ==> IsJsWhitespace(s[i])
  {
    if s != [] && IsJsWhitespace(s[0]) then TrimStart(s[1..]) else s
  }

  function TrimEnd(s: string): (r: string)
    ensures |r| <= |s| && r == s[..|r|]
    ensures r == [] || !IsJsWhitespace(r[|r| - 1])
    ensures forall i :: |r| <= i < |s| ==> IsJsWhitespace(s[i])
  {
    if s != [] && IsJsWhitespace(s[|s| - 1]) then TrimEnd(s[..|s| - 1]) else s
  }

  /** `r` is the slice of `s` starting at `i`, with only white space before
      and after it. */
  predicate TrimmedAt(s: string, r: string, i: int) {
    && 0 <= i <= |s| - |r|
    && r == s[i..i + |r|]
    && (forall k :: 0 <= k < i ==> IsJsWhitespace(s[k]))
    && (forall k :: i + |r| <= k < |s| ==> IsJsWhitespace(s[k]))
  }

  /** `s.trim()`: `s` without its leading and trailing white space. The result
      is a slice of `s`, every character cut away is white space, and the
      result neither starts nor ends with white space. */
  function Trim(s: string): (r: string)
    ensures exists i :: TrimmedAt(s, r, i)
    ensures r == [] || (!IsJsWhitespace(r[0]) && !IsJsWhitespace(r[|r| - 1]))
  {
    var e := TrimEnd(s);
    var r := TrimStart(e);
    var i := |e| - |r|;
    assert TrimmedAt(s, r, i);
    r
  }

  /** An all-white-space text trims to the empty text, and only such a text does. */
  lemma TrimEmptyIffBlank(s: string)
    ensures Trim(s) == [] <==> forall k :: 0 <= k < |s| ==> IsJsWhitespace(s[k])
  {
    if Trim(s) != [] {
      var r := Trim(s);
      var i :| TrimmedAt(s, r, i);
      assert s[i] == r[0];
    }
  }

  function ToLowerChar(c: char): char {
    if 'A' <= c <= 'Z' then (c as int + 32) as char else c
  }

  /** `s.toLowerCase()` on the ASCII letters. */
  function ToLower(s: string): (r: string)
    ensures |r| == |s|
    ensures forall i :: 0 <= i < |s| ==> r[i] == ToLowerChar(s[i])
  {
    seq(|s|, i requires 0 <= i < |s| => ToLowerChar(s[i]))
  }

  /** Lower-casing twice is lower-casing once. */
  lemma ToLowerIdempotent(s: string)
    ensures ToLower(ToLower(s)) == ToLower(s)
  {
    assert forall i :: 0 <= i < |s| ==> ToLower(ToLower(s))[i] == ToLower(s)[i];
  }

  /** `s.includes(t)`: `t` occurs in `s` as a contiguous slice. */
  predicate Contains(s: string, t: string) {
    exists i | 0 <= i <= |s| :: OccursAt(s, t, i)
  }

  predicate OccursAt(s: string, t: string, i: int) {
    0 <= i && i + |t| <= |s| && s[i..i + |t|] == t
  }

  /** Ascending text order of character codes: a prefix comes first,
      otherwise the first differing character decides. */
  predicate TextLe(a: string, b: string) {
    if a == [] then true
    else if b == [] then false
    else if a[0] != b[0] then a[0] < b[0]
    else TextLe(a[1..], b[1..])
  }

  lemma {:induction false} TextLeTotal(a: string, b: string)
    ensures TextLe(a, b) || TextLe(b, a)
    decreases |a|
  {
    if a != [] && b != [] && a[0] == b[0] {
      TextLeTotal(a[1..], b[1..]);
    }
  }

  lemma {:induction false} TextLeTransitive(a: string, b: string, c: string)
    requires TextLe(a, b) && TextLe(b, c)
    ensures TextLe(a, c)
    decreases |a|
  {
    if a != [] && b != [] && c != [] && a[0] == b[0] && b[0] == c[0] {
      TextLeTransitive(a[1..], b[1..], c[1..]);
    }
  }

  /** Ordered by `key`, ascending (what `orderBy: { key: 'asc' }` returns). */
  ghost predicate SortedByKey<T>(xs: seq<T>, key: T -> string) {
    forall i, j :: 0 <= i < j < |xs| ==> TextLe(key(xs[i]), key(xs[j]))
  }

  /** Inserts `x` into an ascending list in front of the first entry whose
      key is not below it. */
  function InsertByKey<T(!new)>(x: T, xs: seq<T>, key: T -> string): (r: seq<T>)
    requires SortedByKey(xs, key)
    ensures |r| == |xs| + 1
    ensures forall y :: y in r <==> y == x || y in xs
    ensures SortedByKey(r, key)
  {
    if xs == [] then [x]
    else if TextLe(key(x), key(xs[0])) then
      InsertInFront(x, xs, key);
      [x] + xs
    else
      var rest := InsertByKey(x, xs[1..], key);
      InsertBehind(x, xs, rest, key);
      [xs[0]] + rest
  }

  lemma InsertInFront<T>(x: T, xs: seq<T>, key: T -> string)
    requires SortedByKey(xs, key) && xs != [] && TextLe(key(x), key(xs[0]))
    ensures SortedByKey([x] + xs, key)
  {
    forall j | 0 < j < |xs| ensures TextLe(key(x), key(xs[j])) {
      TextLeTransitive(key(x), key(xs[0]), key(xs[j]));
    }
  }

  lemma InsertBehind<T(!new)>(x: T, xs: seq<T>, rest: seq<T>, key: T -> string)
    requires SortedByKey(xs, key) && xs != [] && !TextLe(key(x), key(xs[0]))
    requires SortedByKey(rest, key)
    requires forall y :: y in rest ==> y == x || y in xs[1..]
    ensures SortedByKey([xs[0]] + rest, key)
  {
    TextLeTotal(key(x), key(xs[0]));
    forall j | 0 <= j < |rest| ensures TextLe(key(xs[0]), key(rest[j])) {
      if rest[j] != x {
        assert rest[j] in rest;
        assert rest[j] in xs[1..];
        var m :| 0 <= m < |xs[1..]| && xs[1..][m] == rest[j];
        assert xs[m + 1] == rest[j];
      }
    }
  }

  /** The values of `m` in ascending `key` order: what a `findMany` with
      `orderBy` on a text column returns for the rows of one table. */
  method SortedValues<K, V(==,!new)>(m: map<K, V>, key: V -> string) returns (r: seq<V>)
    ensures |r| == |m|
    ensures forall v :: v in r <==> v in m.Values
    ensures SortedByKey(r, key)
  {
    var rest := m.Keys;
    ghost var seen: set<K> := {};
    r := [];
    while rest != {}
      invariant rest !! seen && rest + seen == m.Keys
      invariant |r| == |seen|
      invariant forall v :: v in r <==> exists k :: k in seen && m[k] == v
      invariant SortedByKey(r, key)
      decreases rest
    {
      var k :| k in rest;
      ghost var before := r;
      r := InsertByKey(m[k], r, key);
      rest := rest - {k};
      seen := seen + {k};
    }
    assert seen == m.Keys;
    assert |m.Keys| == |m|;
  }
}
