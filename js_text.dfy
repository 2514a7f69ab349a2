/**
 * The handful of JavaScript string operations the routes rely on, written
 * out so that their edge cases are explicit: `split` on a one-character
 * separator, `join`, `trim`, ASCII case mapping, `includes`, `startsWith`
 * and the decimal rendering of a non-negative number inside a template
 * literal.
 */
module JsText {

  datatype Option<T> = None | Some(value: T)

  /** JavaScript truthiness of an optional string: present and not empty. */
  predicate Truthy(v: Option<string>) {
    v.Some? && v.value != ""
  }

  /** No string occurs twice, as in the keys of an object or the members of a `Set`. */
  predicate Distinct(s: seq<string>) {
    forall i, j :: 0 <= i < j < |s| ==> s[i] != s[j]
  }

  // ---------------------------------------------------------------------
  // Counting, prefixes and substrings
  // ---------------------------------------------------------------------

  /** Number of occurrences of `c` in `s`. */
  function Count(s: string, c: char): (n: nat)
    ensures n <= |s|
    ensures n == 0 <==> c !in s
  {
    if s == [] then 0
    else (if s[0] == c then 1 else 0) + Count(s[1..], c)
  }

  lemma {:induction false} CountAppend(a: string, b: string, c: char)
    ensures Count(a + b, c) == Count(a, c) + Count(b, c)
  {
    if a == [] {
      assert a + b == b;
    } else {
      assert (a + b)[1..] == a[1..] + b;
      CountAppend(a[1..], b, c);
    }
  }

  /** `s.startsWith(p)` */
  predicate StartsWith(s: string, p: string) {
    |p| <= |s| && s[..|p|] == p
  }

  /** `s.includes(t)`: some occurrence of `t` starts at some index of `s`. */
  predicate Includes(s: string, t: string)
    decreases |s|
  {
    StartsWith(s, t) || (s != [] && Includes(s[1..], t))
  }

  /** `t` occurs in `s` starting at index `i`. */
  predicate OccursAt(s: string, t: string, i: int) {
    0 <= i <= |s| - |t| && s[i..i + |t|] == t
  }

  /** `Includes` holds exactly when `t` occurs at some index of `s`. */
  lemma {:induction false} IncludesAt(s: string, t: string)
    ensures Includes(s, t) <==> exists i :: OccursAt(s, t, i)
    decreases |s|
  {
    if StartsWith(s, t) {
      assert OccursAt(s, t, 0);
    }
    if s == [] {
      if exists i :: OccursAt(s, t, i) {
        var i :| OccursAt(s, t, i);
        assert StartsWith(s, t);
      }
    } else {
      IncludesAt(s[1..], t);
      if Includes(s[1..], t) {
        var i :| OccursAt(s[1..], t, i);
        assert s[i + 1..i + 1 + |t|] == s[1..][i..i + |t|];
        assert OccursAt(s, t, i + 1);
      }
      if exists i :: OccursAt(s, t, i) {
        var i :| OccursAt(s, t, i);
        if i > 0 {
          assert s[1..][i - 1..i - 1 + |t|] == s[i..i + |t|];
          assert OccursAt(s[1..], t, i - 1);
        } else {
          assert StartsWith(s, t);
        }
      }
    }
  }

  /** Every string includes the empty string. */
  lemma IncludesEmpty(s: string)
    ensures Includes(s, "")
  {
    assert StartsWith(s, "");
  }

  // ---------------------------------------------------------------------
  // split / join
  // ---------------------------------------------------------------------

  /**
   * `s.split(sep)` for a one-character separator: the maximal
   * separator-free pieces, in order. There is always at least one piece,
   * and an empty string yields `[""]`.
   */
  function Split(s: string, sep: char): (parts: seq<string>)
    ensures |parts| >= 1
    ensures forall i :: 0 <= i < |parts| ==> sep !in parts[i]
  {
    if s == [] then [""]
    else
      var rest := Split(s[1..], sep);
      if s[0] == sep then [""] + rest
      else [[s[0]] + rest[0]] + rest[1..]
  }

  /** `parts.join(sep)` */
  function Join(parts: seq<string>, sep: string): string {
    if |parts| == 0 then ""
    else if |parts| == 1 then parts[0]
    else parts[0] + sep + Join(parts[1..], sep)
  }

  /** Adding a piece at the end adds one separator and the piece. */
  lemma {:induction false} JoinAppend(parts: seq<string>, x: string, sep: string)
    requires |parts| > 0
    ensures Join(parts + [x], sep) == Join(parts, sep) + sep + x
  {
    if |parts| == 1 {
      assert (parts + [x])[1..] == [x];
    } else {
      assert (parts + [x])[1..] == parts[1..] + [x];
      JoinAppend(parts[1..], x, sep);
    }
  }

  /** Total length of a sequence of strings. */
  function TotalLength(parts: seq<string>): nat {
    if parts == [] then 0 else |parts[0]| + TotalLength(parts[1..])
  }

  /** A join of n pieces holds exactly n - 1 separators besides the pieces. */
  lemma {:induction false} JoinLength(parts: seq<string>, sep: string)
    requires |parts| > 0
    ensures |Join(parts, sep)| == TotalLength(parts) + |sep| * (|parts| - 1)
  {
    if |parts| > 1 {
      JoinLength(parts[1..], sep);
    }
  }

  /** Joining the pieces of a split with the same separator gives the string back. */
  lemma {:induction false} JoinSplit(s: string, sep: char)
    ensures Join(Split(s, sep), [sep]) == s
  {
    if s != [] {
      var rest := Split(s[1..], sep);
      JoinSplit(s[1..], sep);
      if s[0] == sep {
        assert Split(s, sep) == [""] + rest;
        assert ([""] + rest)[1..] == rest;
        assert Join([""] + rest, [sep]) == [sep] + Join(rest, [sep]);
      } else {
        var parts := [[s[0]] + rest[0]] + rest[1..];
        assert Split(s, sep) == parts;
        if |rest| == 1 {
          assert Join(rest, [sep]) == rest[0];
        } else {
          assert Join(rest, [sep]) == rest[0] + [sep] + Join(rest[1..], [sep]);
          assert parts[1..] == rest[1..];
        }
      }
    }
  }

  /** A split yields one more piece than there are separators. */
  lemma {:induction false} SplitLength(s: string, sep: char)
    ensures |Split(s, sep)| == Count(s, sep) + 1
  {
    if s != [] {
      SplitLength(s[1..], sep);
    }
  }

  /** A string without the separator splits into itself. */
  lemma {:induction false} SplitNoSeparator(s: string, sep: char)
    requires sep !in s
    ensures Split(s, sep) == [s]
  {
    if s != [] {
      SplitNoSeparator(s[1..], sep);
      assert [s[0]] + s[1..] == s;
    }
  }

  /** The first piece is everything before the first separator. */
  lemma {:induction false} SplitAfterPrefix(a: string, sep: char, b: string)
    requires sep !in a
    ensures Split(a + [sep] + b, sep) == [a] + Split(b, sep)
  {
    if a == [] {
      assert a + [sep] + b == [sep] + b;
      assert ([sep] + b)[1..] == b;
    } else {
      var s := a + [sep] + b;
      assert s[0] == a[0];
      assert s[1..] == a[1..] + [sep] + b;
      SplitAfterPrefix(a[1..], sep, b);
      assert [a[0]] + a[1..] == a;
    }
  }

  /**
   * `s.split(sep)[0]` is the longest separator-free prefix of `s`: either
   * all of `s`, or the text before the first separator.
   */
  lemma {:induction false} SplitFirstPiece(s: string, sep: char)
    ensures StartsWith(s, Split(s, sep)[0])
    ensures var p := Split(s, sep)[0]; p == s || s[|p|] == sep
  {
    if s != [] {
      SplitFirstPiece(s[1..], sep);
    }
  }

  // ---------------------------------------------------------------------
  // trim
  // ---------------------------------------------------------------------

  /**
   * The characters `String.prototype.trim` and the regular-expression class
   * `\s` treat as white space: ECMAScript WhiteSpace and LineTerminator.
   */
  predicate IsWhitespace(c: char) {
    var n := c as int;
    n == 0x09 || n == 0x0A || n == 0x0B || n == 0x0C || n == 0x0D || n == 0x20
    || n == 0xA0 || n == 0x1680 || (0x2000 <= n <= 0x200A) || n == 0x2028
    || n == 0x2029 || n == 0x202F || n == 0x205F || n == 0x3000 || n == 0xFEFF
  }

  /** The characters the regular-expression `.` refuses to match. */
  predicate IsLineTerminator(c: char) {
    var n := c as int;
    n == 0x0A || n == 0x0D || n == 0x2028 || n == 0x2029
  }

  predicate AllWhitespace(s: string) {
    forall i :: 0 <= i < |s| ==> IsWhitespace(s[i])
  }

  /** The index of the first character of `s` at or after `i` that is not white space. */
  function SkipWhitespace(s: string, i: nat): (k: nat)
    requires i <= |s|
    ensures i <= k <= |s| && (k == |s| || !IsWhitespace(s[k]))
    ensures forall j :: i <= j < k ==> IsWhitespace(s[j])
    decreases |s| - i
  {
    if i == |s| || !IsWhitespace(s[i]) then i else SkipWhitespace(s, i + 1)
  }

  /** The index just past the last character of `s[..j]` that is not white space. */
  function SkipWhitespaceBack(s: string, j: nat): (k: nat)
    requires j <= |s|
    ensures k <= j && (k == 0 || !IsWhitespace(s[k - 1]))
    ensures forall i :: k <= i < j ==> IsWhitespace(s[i])
  {
    if j == 0 || !IsWhitespace(s[j - 1]) then j else SkipWhitespaceBack(s, j - 1)
  }

  /** `s.trimStart()` */
  function TrimStart(s: string): (r: string)
    ensures |r| <= |s|
    ensures r == [] || !IsWhitespace(r[0])
    ensures AllWhitespace(s[..|s| - |r|])
  {
    s[SkipWhitespace(s, 0)..]
  }

  /** `s.trimEnd()` */
  function TrimEnd(s: string): (r: string)
    ensures |r| <= |s|
    ensures r == [] || !IsWhitespace(r[|r| - 1])
    ensures AllWhitespace(s[|r|..])
  {
    s[..SkipWhitespaceBack(s, |s|)]
  }

  /** `s.trim()` */
  function Trim(s: string): (r: string) {
    TrimEnd(TrimStart(s))
  }

  /** What `trim` keeps is a slice of the input with no white space at either end. */
  lemma TrimIsSlice(s: string)
    ensures var i := |s| - |TrimStart(s)|; var j := i + |Trim(s)|;
      j <= |s| && Trim(s) == s[i..j] && AllWhitespace(s[..i]) && AllWhitespace(s[j..])
    ensures Trim(s) == [] || (!IsWhitespace(Trim(s)[0]) && !IsWhitespace(Trim(s)[|Trim(s)| - 1]))
  {
    var t := TrimStart(s);
    var i := |s| - |t|;
    var r := TrimEnd(t);
    var j := i + |r|;
    assert r == s[i..j];
    assert s[j..] == t[|r|..];
    if r != [] {
      assert r[0] == t[0];
    }
  }

  /** Trimming white space that surrounds a string with solid ends gives that string. */
  lemma TrimPadded(pre: string, x: string, post: string)
    requires AllWhitespace(pre) && AllWhitespace(post)
    requires x != [] && !IsWhitespace(x[0]) && !IsWhitespace(x[|x| - 1])
    ensures Trim(pre + x + post) == x
  {
    var s := pre + x + post;
    assert s[|pre|] == x[0];
    assert s[|pre| + |x| - 1] == x[|x| - 1];
    var t := TrimStart(s);
    assert t == s[|pre|..];
    assert t == x + post;
    var r := TrimEnd(t);
    assert t[|x| - 1] == x[|x| - 1];
    assert r == t[..|x|];
  }

  /** A string that neither starts nor ends with white space is its own trim. */
  lemma TrimSolid(x: string)
    requires x == [] || (!IsWhitespace(x[0]) && !IsWhitespace(x[|x| - 1]))
    ensures Trim(x) == x
  {
    if x != [] {
      TrimPadded("", x, "");
      assert "" + x + "" == x;
    }
  }

  /** Trimming is idempotent. */
  lemma TrimIdempotent(s: string)
    ensures Trim(Trim(s)) == Trim(s)
  {
    TrimIsSlice(s);
    TrimSolid(Trim(s));
  }

  // ---------------------------------------------------------------------
  // ASCII case mapping
  // ---------------------------------------------------------------------

  function LowerChar(c: char): char {
    if 'A' <= c <= 'Z' then (c as int + 32) as char else c
  }

  function UpperChar(c: char): char {
    if 'a' <= c <= 'z' then (c as int - 32) as char else c
  }

  /** `s.toLowerCase()` on the ASCII letters. */
  function ToLower(s: string): (r: string)
    ensures |r| == |s|
    ensures forall i :: 0 <= i < |s| ==> r[i] == LowerChar(s[i])
  {
    seq(|s|, i requires 0 <= i < |s| => LowerChar(s[i]))
  }

  /** `s.toUpperCase()` on the ASCII letters. */
  function ToUpper(s: string): (r: string)
    ensures |r| == |s|
    ensures forall i :: 0 <= i < |s| ==> r[i] == UpperChar(s[i])
  {
    seq(|s|, i requires 0 <= i < |s| => UpperChar(s[i]))
  }

  // ---------------------------------------------------------------------
  // Decimal rendering of a non-negative integer (`${n}`)
  // ---------------------------------------------------------------------

  function DigitChar(d: nat): (c: char)
    requires d < 10
    ensures '0' <= c <= '9' && c as int - '0' as int == d
  {
    ('0' as int + d) as char
  }

  predicate IsDigit(c: char) {
    '0' <= c <= '9'
  }

  /** `${n}` for a non-negative integer: its decimal digits, no leading zero. */
  function NatToString(n: nat): (s: string)
    ensures |s| >= 1 && forall i :: 0 <= i < |s| ==> IsDigit(s[i])
    ensures |s| > 1 ==> s[0] != '0'
  {
    if n < 10 then [DigitChar(n)]
    else NatToString(n / 10) + [DigitChar(n % 10)]
  }

  /** Reads a string of decimal digits back as a number. */
  function ParseDecimal(s: string): nat
    requires forall i :: 0 <= i < |s| ==> IsDigit(s[i])
  {
    if s == [] then 0
    else
      assert IsDigit(s[|s| - 1]);
      10 * ParseDecimal(s[..|s| - 1]) + (s[|s| - 1] as int - '0' as int)
  }

  /** The decimal rendering is read back as the same number, so it is injective. */
  lemma {:induction false} ParseNatToString(n: nat)
    ensures ParseDecimal(NatToString(n)) == n
  {
    if n >= 10 {
      var s := NatToString(n);
      assert s[..|s| - 1] == NatToString(n / 10);
      ParseNatToString(n / 10);
    }
  }

  // ---------------------------------------------------------------------
  // The order of an object's own keys (`Object.keys`, `Object.entries`)
  // ---------------------------------------------------------------------

  predicate AllDigits(s: string) {
    forall i :: 0 <= i < |s| ==> IsDigit(s[i])
  }

  /** The number a key spells, when it is all digits. */
  function IndexValue(s: string): nat {
    if AllDigits(s) then ParseDecimal(s) else 0
  }

  /**
   * An array index: `${n}` for some n below 2^32 - 1, with no sign and no
   * leading zero. An object lists such keys before all others.
   */
  predicate IsArrayIndex(s: string) {
    AllDigits(s) && IndexValue(s) < 0xFFFF_FFFF && NatToString(IndexValue(s)) == s
  }

  predicate AllIndexKeys(keys: seq<string>) {
    forall i :: 0 <= i < |keys| ==> IsArrayIndex(keys[i])
  }

  /** Array-index keys in strictly ascending numeric order. */
  predicate Ascending(keys: seq<string>) {
    && AllIndexKeys(keys)
    && forall i, j :: 0 <= i < j < |keys| ==> IndexValue(keys[i]) < IndexValue(keys[j])
  }

  /** Puts an array-index key into its place among index keys held in ascending order. */
  function InsertIndexKey(keys: seq<string>, k: string): (r: seq<string>)
    requires AllIndexKeys(keys) && IsArrayIndex(k)
    ensures |r| == |keys| + 1 && AllIndexKeys(r)
    ensures forall x :: x in r <==> x == k || x in keys
  {
    if keys == [] then [k]
    else if IndexValue(k) < IndexValue(keys[0]) then [k] + keys
    else [keys[0]] + InsertIndexKey(keys[1..], k)
  }

  /** Array-index keys sorted by their numeric value. */
  function SortIndexKeys(keys: seq<string>): (r: seq<string>)
    requires AllIndexKeys(keys)
    ensures |r| == |keys| && AllIndexKeys(r)
    ensures forall x :: x in r <==> x in keys
  {
    if keys == [] then []
    else InsertIndexKey(SortIndexKeys(keys[..|keys| - 1]), keys[|keys| - 1])
  }

  /** The array-index keys of `keys`, in their order. */
  function IndexKeys(keys: seq<string>): (r: seq<string>)
    ensures AllIndexKeys(r)
    ensures forall x :: x in r <==> x in keys && IsArrayIndex(x)
  {
    if keys == [] then []
    else IndexKeys(keys[..|keys| - 1]) + (if IsArrayIndex(keys[|keys| - 1]) then [keys[|keys| - 1]] else [])
  }

  /** The keys of `keys` that are not array indices, in their order. */
  function NamedKeys(keys: seq<string>): (r: seq<string>)
    ensures |IndexKeys(keys)| + |r| == |keys|
    ensures forall x :: x in r <==> x in keys && !IsArrayIndex(x)
  {
    if keys == [] then []
    else NamedKeys(keys[..|keys| - 1]) + (if IsArrayIndex(keys[|keys| - 1]) then [] else [keys[|keys| - 1]])
  }

  /**
   * The own keys of an ordinary object whose keys were created in the order
   * `created`: the array indices in ascending numeric order, then the other
   * keys in creation order.
   */
  function OwnKeys(created: seq<string>): (r: seq<string>)
    ensures |r| == |created|
    ensures forall x :: x in r <==> x in created
  {
    SortIndexKeys(IndexKeys(created)) + NamedKeys(created)
  }

  lemma AscendingTail(keys: seq<string>)
    requires Ascending(keys) && keys != []
    ensures Ascending(keys[1..])
  {
    var tail := keys[1..];
    forall i, j | 0 <= i < j < |tail|
      ensures IndexValue(tail[i]) < IndexValue(tail[j])
    {
      assert tail[i] == keys[i + 1] && tail[j] == keys[j + 1];
    }
  }

  lemma AscendingCons(h: string, rest: seq<string>)
    requires Ascending(rest) && IsArrayIndex(h)
    requires forall x :: x in rest ==> IndexValue(h) < IndexValue(x)
    ensures Ascending([h] + rest)
  {
    var r := [h] + rest;
    forall i, j | 0 <= i < j < |r|
      ensures IndexValue(r[i]) < IndexValue(r[j])
    {
      assert r[j] == rest[j - 1] && r[j] in rest;
      if i > 0 {
        assert r[i] == rest[i - 1];
      }
    }
  }

  lemma {:induction false} InsertAscending(keys: seq<string>, k: string)
    requires Ascending(keys) && IsArrayIndex(k) && k !in keys
    ensures Ascending(InsertIndexKey(keys, k))
  {
    if keys == [] {
    } else if IndexValue(k) < IndexValue(keys[0]) {
      forall x | x in keys
        ensures IndexValue(k) < IndexValue(x)
      {
        var j :| 0 <= j < |keys| && keys[j] == x;
        if j > 0 {
          assert IndexValue(keys[0]) < IndexValue(keys[j]);
        }
      }
      AscendingCons(k, keys);
    } else {
      assert k != keys[0];
      assert IndexValue(k) != IndexValue(keys[0]);
      var tail := keys[1..];
      AscendingTail(keys);
      InsertAscending(tail, k);
      var rest := InsertIndexKey(tail, k);
      forall x | x in rest
        ensures IndexValue(keys[0]) < IndexValue(x)
      {
        if x != k {
          var j :| 0 <= j < |tail| && tail[j] == x;
          assert keys[j + 1] == x;
        }
      }
      AscendingCons(keys[0], rest);
    }
  }

  lemma {:induction false} SortAscending(keys: seq<string>)
    requires AllIndexKeys(keys) && Distinct(keys)
    ensures Ascending(SortIndexKeys(keys))
  {
    if keys != [] {
      var prefix := keys[..|keys| - 1];
      var last := keys[|keys| - 1];
      assert Distinct(prefix) by {
        forall i, j | 0 <= i < j < |prefix|
          ensures prefix[i] != prefix[j]
        {
          assert prefix[i] == keys[i] && prefix[j] == keys[j];
        }
      }
      SortAscending(prefix);
      assert last !in prefix by {
        forall i | 0 <= i < |prefix|
          ensures prefix[i] != last
        {
          assert prefix[i] == keys[i];
        }
      }
      InsertAscending(SortIndexKeys(prefix), last);
    }
  }

  lemma AscendingDistinct(keys: seq<string>)
    requires Ascending(keys)
    ensures Distinct(keys)
  {
    forall i, j | 0 <= i < j < |keys|
      ensures keys[i] != keys[j]
    {
      assert IndexValue(keys[i]) < IndexValue(keys[j]);
    }
  }

  lemma {:induction false} FiltersDistinct(keys: seq<string>)
    requires Distinct(keys)
    ensures Distinct(IndexKeys(keys)) && Distinct(NamedKeys(keys))
  {
    if keys != [] {
      var prefix := keys[..|keys| - 1];
      var last := keys[|keys| - 1];
      assert Distinct(prefix) by {
        forall i, j | 0 <= i < j < |prefix|
          ensures prefix[i] != prefix[j]
        {
          assert prefix[i] == keys[i] && prefix[j] == keys[j];
        }
      }
      FiltersDistinct(prefix);
      assert last !in prefix by {
        forall i | 0 <= i < |prefix|
          ensures prefix[i] != last
        {
          assert prefix[i] == keys[i];
        }
      }
      AppendFreshDistinct(IndexKeys(prefix), last);
      AppendFreshDistinct(NamedKeys(prefix), last);
    }
  }

  lemma AppendFreshDistinct(keys: seq<string>, x: string)
    requires Distinct(keys) && x !in keys
    ensures Distinct(keys + [x])
  {
    var r := keys + [x];
    forall i, j | 0 <= i < j < |r|
      ensures r[i] != r[j]
    {
      assert r[i] == keys[i];
    }
  }

  lemma {:induction false} NamedKeysAppend(a: seq<string>, b: seq<string>)
    ensures NamedKeys(a + b) == NamedKeys(a) + NamedKeys(b)
    decreases |b|
  {
    if b != [] {
      var prefix := b[..|b| - 1];
      assert (a + b)[..|a + b| - 1] == a + prefix;
      NamedKeysAppend(a, prefix);
    } else {
      assert a + b == a;
    }
  }

  lemma {:induction false} NamedKeysOfIndexKeys(keys: seq<string>)
    requires AllIndexKeys(keys)
    ensures NamedKeys(keys) == []
  {
    if keys != [] {
      NamedKeysOfIndexKeys(keys[..|keys| - 1]);
    }
  }

  lemma {:induction false} NamedKeysIdempotent(keys: seq<string>)
    ensures NamedKeys(NamedKeys(keys)) == NamedKeys(keys)
  {
    if keys != [] {
      var prefix := keys[..|keys| - 1];
      var last := keys[|keys| - 1];
      NamedKeysIdempotent(prefix);
      var tail := if IsArrayIndex(last) then [] else [last];
      NamedKeysAppend(NamedKeys(prefix), tail);
      if !IsArrayIndex(last) {
        assert NamedKeys([last]) == NamedKeys([]) + [last];
      }
    }
  }

  lemma DisjointAppendDistinct(a: seq<string>, b: seq<string>)
    requires Distinct(a) && Distinct(b)
    requires forall x :: x in a ==> x !in b
    ensures Distinct(a + b)
  {
    var r := a + b;
    forall i, j | 0 <= i < j < |r|
      ensures r[i] != r[j]
    {
      if j < |a| {
        assert r[i] == a[i] && r[j] == a[j];
      } else if i >= |a| {
        assert r[i] == b[i - |a|] && r[j] == b[j - |a|];
      } else {
        assert r[i] == a[i] && a[i] in a;
        assert r[j] == b[j - |a|] && r[j] in b;
      }
    }
  }

  /** The sorted array indices and the other keys never share a key. */
  lemma OwnKeysDistinct(created: seq<string>)
    requires Distinct(created)
    ensures Distinct(OwnKeys(created))
  {
    var s := SortIndexKeys(IndexKeys(created));
    FiltersDistinct(created);
    SortAscending(IndexKeys(created));
    AscendingDistinct(s);
    forall x | x in s
      ensures x !in NamedKeys(created)
    {
      var i :| 0 <= i < |s| && s[i] == x;
    }
    DisjointAppendDistinct(s, NamedKeys(created));
  }

  /** Every array index comes before every other key, and the array indices ascend. */
  lemma OwnKeysIndexFirst(created: seq<string>)
    requires Distinct(created)
    ensures var r := OwnKeys(created);
      forall i, j :: 0 <= i < j < |r| && IsArrayIndex(r[j]) ==>
        IsArrayIndex(r[i]) && IndexValue(r[i]) < IndexValue(r[j])
  {
    var s := SortIndexKeys(IndexKeys(created));
    var n := NamedKeys(created);
    var r := OwnKeys(created);
    FiltersDistinct(created);
    SortAscending(IndexKeys(created));
    forall i, j | 0 <= i < j < |r| && IsArrayIndex(r[j])
      ensures IsArrayIndex(r[i]) && IndexValue(r[i]) < IndexValue(r[j])
    {
      assert r[i] == s[i] && r[j] == s[j];
    }
  }

  /** The keys that are not array indices keep their creation order. */
  lemma OwnKeysKeepNamedOrder(created: seq<string>)
    ensures NamedKeys(OwnKeys(created)) == NamedKeys(created)
  {
    var s := SortIndexKeys(IndexKeys(created));
    NamedKeysAppend(s, NamedKeys(created));
    NamedKeysOfIndexKeys(s);
    NamedKeysIdempotent(created);
  }

  /**
   * The own-key order lists each key once, every array index before every
   * other key and the array indices in ascending numeric order, and keeps
   * the other keys in creation order.
   */
  lemma OwnKeysSpec(created: seq<string>)
    requires Distinct(created)
    ensures var r := OwnKeys(created);
      && Distinct(r)
      && (forall i, j :: 0 <= i < j < |r| && IsArrayIndex(r[j]) ==>
            IsArrayIndex(r[i]) && IndexValue(r[i]) < IndexValue(r[j]))
      && NamedKeys(r) == NamedKeys(created)
  {
    OwnKeysDistinct(created);
    OwnKeysIndexFirst(created);
    OwnKeysKeepNamedOrder(created);
  }
}
