/** The Python string primitives the threat engine and the rule forge are
    built from: `format(b, '02x')`, `str(n)` on a non-negative integer,
    `str.upper`, `str.replace(c, '')` and `sep.join(parts)`. Beside them
    stand reference definitions that the source never calls, written only to
    state the laws of those primitives: `Split` (as `str.split`), `Count`
    (as `str.count`), `DecimalValue` and `HexDigitValue` (as `int`), with
    `IndexOf` as their helper. */
module Text {

  /** A value that may be missing, for the decoders below. */
  datatype Option<T> = None | Some(value: T)

  // ---------------------------------------------------------------------
  // Character classes
  // ---------------------------------------------------------------------

  predicate IsDigitChar(c: char) { '0' <= c <= '9' }

  predicate IsLowerHexChar(c: char) { '0' <= c <= '9' || 'a' <= c <= 'f' }

  predicate IsUpperHexChar(c: char) { '0' <= c <= '9' || 'A' <= c <= 'F' }

  predicate IsDecimal(s: string) { forall i :: 0 <= i < |s| ==> IsDigitChar(s[i]) }

  predicate IsLowerHex(s: string) { forall i :: 0 <= i < |s| ==> IsLowerHexChar(s[i]) }

  predicate IsUpperHex(s: string) { forall i :: 0 <= i < |s| ==> IsUpperHexChar(s[i]) }

  // ---------------------------------------------------------------------
  // Hexadecimal and decimal digits
  // ---------------------------------------------------------------------

  /** The lower-case hexadecimal digit for `n`, as `format(n, 'x')` writes it. */
  function LowerHexDigit(n: nat): (c: char)
    requires n < 16
    ensures IsLowerHexChar(c)
    ensures HexDigitValue(c) == n
  {
    if n < 10 then ('0' as int + n) as char else ('a' as int + n - 10) as char
  }

  /** The value of a hexadecimal digit of either case; a reference definition for the laws of `:02x`. */
  function HexDigitValue(c: char): (n: nat)
    ensures n < 16
  {
    if '0' <= c <= '9' then c as int - '0' as int
    else if 'a' <= c <= 'f' then c as int - 'a' as int + 10
    else if 'A' <= c <= 'F' then c as int - 'A' as int + 10
    else 0
  }

  /** The decimal digit for `n < 10`. */
  function DecimalDigit(n: nat): (c: char)
    requires n < 10
    ensures IsDigitChar(c)
    ensures c as int - '0' as int == n
  {
    ('0' as int + n) as char
  }

  /** `str(n)` for a non-negative integer: decimal, no leading zero, and
      `"0"` for zero. */
  function DecimalString(n: nat): (s: string)
    ensures 1 <= |s|
    ensures IsDecimal(s)
    ensures s[0] == '0' <==> n == 0
    ensures n == 0 ==> s == "0"
    decreases n
  {
    if n < 10 then [DecimalDigit(n)] else DecimalString(n / 10) + [DecimalDigit(n % 10)]
  }

  /** The value of a string of decimal digits (`int(s)`, for `s` made of digits). */
  function DecimalValue(s: string): nat
    decreases |s|
  {
    if s == [] then 0
    else 10 * DecimalValue(s[..|s| - 1]) + (if IsDigitChar(s[|s| - 1]) then s[|s| - 1] as int - '0' as int else 0)
  }

  /** Parsing the decimal form of `n` gives `n` back. */
  lemma {:induction false} DecimalRoundTrip(n: nat)
    ensures DecimalValue(DecimalString(n)) == n
    decreases n
  {
    if n >= 10 {
      var s := DecimalString(n);
      assert s[..|s| - 1] == DecimalString(n / 10);
      DecimalRoundTrip(n / 10);
    }
  }

  /** A number below 1000 has at most three decimal digits. */
  lemma DecimalWidth(n: nat)
    requires n < 1000
    ensures |DecimalString(n)| <= 3
  {
    if n >= 10 {
      var m := n / 10;
      assert m < 100;
      if m >= 10 {
        assert m / 10 < 10;
        assert |DecimalString(m / 10)| == 1;
        assert |DecimalString(m)| == 2;
      }
    }
  }

  // ---------------------------------------------------------------------
  // str.upper, restricted to ASCII
  // ---------------------------------------------------------------------

  /** `c.upper()` for an ASCII character: lower-case letters move to upper
      case, every other character is kept. */
  function UpperChar(c: char): (u: char)
    ensures 'a' <= c <= 'z' ==> 'A' <= u <= 'Z' && u as int == c as int - 32
    ensures !('a' <= c <= 'z') ==> u == c
    ensures IsLowerHexChar(c) ==> IsUpperHexChar(u) && HexDigitValue(u) == HexDigitValue(c)
  {
    if 'a' <= c <= 'z' then (c as int - 32) as char else c
  }

  /** `s.upper()`, character by character. */
  function Upper(s: string): (u: string)
    ensures |u| == |s|
    ensures forall i :: 0 <= i < |s| ==> u[i] == UpperChar(s[i])
  {
    seq(|s|, i requires 0 <= i < |s| => UpperChar(s[i]))
  }

  /** Upper-casing a lower-case hexadecimal string gives an upper-case one
      with the same digit values. */
  lemma UpperOfLowerHex(s: string)
    requires IsLowerHex(s)
    ensures IsUpperHex(Upper(s))
    ensures forall i :: 0 <= i < |s| ==> HexDigitValue(Upper(s)[i]) == HexDigitValue(s[i])
  {
  }

  /** Upper-casing never creates a lower-case letter and keeps every space where it was. */
  lemma UpperShape(s: string)
    ensures forall i :: 0 <= i < |s| ==> !('a' <= Upper(s)[i] <= 'z')
    ensures forall i :: 0 <= i < |s| ==> (Upper(s)[i] == ' ' <==> s[i] == ' ')
  {
  }

  // ---------------------------------------------------------------------
  // str.replace(c, '')
  // ---------------------------------------------------------------------

  /** `s.replace(c, '')`: `s` with every occurrence of `c` deleted, the
      other characters kept in order. */
  function RemoveAll(s: string, c: char): (r: string)
    ensures c !in r
    ensures |r| <= |s|
    ensures forall x :: x in r ==> x in s
    ensures c !in s ==> r == s
    decreases |s|
  {
    if s == [] then []
    else (if s[0] == c then [] else [s[0]]) + RemoveAll(s[1..], c)
  }

  /** Deleting `c` removes exactly its occurrences: the rest keeps its length. */
  lemma {:induction false} RemoveAllLength(s: string, c: char)
    ensures |RemoveAll(s, c)| == |s| - Count(s, c)
    decreases |s|
  {
    if s != [] {
      RemoveAllLength(s[1..], c);
    }
  }

  /** Deleting a character distributes over concatenation. */
  lemma {:induction false} RemoveAllConcat(a: string, b: string, c: char)
    ensures RemoveAll(a + b, c) == RemoveAll(a, c) + RemoveAll(b, c)
    decreases |a|
  {
    if a != [] {
      assert (a + b)[0] == a[0];
      assert (a + b)[1..] == a[1..] + b;
      RemoveAllConcat(a[1..], b, c);
    } else {
      assert a + b == b;
    }
  }

  // ---------------------------------------------------------------------
  // str.split(sep) and sep.join(parts)
  // ---------------------------------------------------------------------

  /** The position of the first `c` in `s`, or `|s|` when there is none. */
  function IndexOf(s: string, c: char): (i: nat)
    ensures i <= |s|
    ensures i < |s| ==> s[i] == c
    ensures forall j :: 0 <= j < i ==> s[j] != c
    decreases |s|
  {
    if s == [] then 0 else if s[0] == c then 0 else 1 + IndexOf(s[1..], c)
  }

  /** `s.split(sep)`: the maximal pieces of `s` between occurrences of
      `sep`, empty pieces included; the empty string gives `[""]`. */
  function Split(s: string, sep: char): (parts: seq<string>)
    ensures |parts| >= 1
    ensures forall k :: 0 <= k < |parts| ==> sep !in parts[k]
    decreases |s|
  {
    var i := IndexOf(s, sep);
    if i == |s| then [s] else [s[..i]] + Split(s[i + 1..], sep)
  }

  /** `sep.join(parts)`: the parts with one `sep` between neighbours. */
  function Join(parts: seq<string>, sep: char): (r: string)
    ensures parts == [] ==> r == ""
    ensures parts != [] ==> parts[0] <= r
    decreases |parts|
  {
    if |parts| == 0 then ""
    else if |parts| == 1 then parts[0]
    else parts[0] + [sep] + Join(parts[1..], sep)
  }

  /** Joining the pieces of a split gives the string back. */
  lemma {:induction false} JoinSplit(s: string, sep: char)
    ensures Join(Split(s, sep), sep) == s
    decreases |s|
  {
    var i := IndexOf(s, sep);
    if i < |s| {
      var rest := Split(s[i + 1..], sep);
      JoinSplit(s[i + 1..], sep);
      assert Split(s, sep) == [s[..i]] + rest;
      assert ([s[..i]] + rest)[1..] == rest;
      assert s == s[..i] + [sep] + s[i + 1..];
    }
  }

  /** Splitting a join gives the parts back, provided there is at least one
      part and no part contains the separator. */
  lemma {:induction false} SplitJoin(parts: seq<string>, sep: char)
    requires |parts| >= 1
    requires forall k :: 0 <= k < |parts| ==> sep !in parts[k]
    ensures Split(Join(parts, sep), sep) == parts
    decreases |parts|
  {
    var head := parts[0];
    if |parts| == 1 {
      assert IndexOf(head, sep) == |head|;
    } else {
      var tail := Join(parts[1..], sep);
      var s := head + [sep] + tail;
      assert s[|head|] == sep;
      var i := IndexOf(s, sep);
      assert forall j :: 0 <= j < |head| ==> s[j] == head[j];
      assert i == |head|;
      assert s[..i] == head;
      assert s[i + 1..] == tail;
      SplitJoin(parts[1..], sep);
      assert parts == [head] + parts[1..];
    }
  }

  /** `s.count(c)`: the number of occurrences of `c` in `s`. */
  function Count(s: string, c: char): (n: nat)
    ensures n <= |s|
    decreases |s|
  {
    if s == [] then 0 else (if s[0] == c then 1 else 0) + Count(s[1..], c)
  }

  lemma {:induction false} CountConcat(a: string, b: string, c: char)
    ensures Count(a + b, c) == Count(a, c) + Count(b, c)
    decreases |a|
  {
    if a == [] {
      assert a + b == b;
    } else {
      assert (a + b)[1..] == a[1..] + b;
      CountConcat(a[1..], b, c);
    }
  }

  lemma {:induction false} CountAbsent(s: string, c: char)
    requires c !in s
    ensures Count(s, c) == 0
    decreases |s|
  {
    if s != [] {
      CountAbsent(s[1..], c);
    }
  }

  /** A join of `n >= 1` separator-free parts holds exactly `n - 1` separators. */
  lemma {:induction false} CountJoin(parts: seq<string>, sep: char)
    requires |parts| >= 1
    requires forall k :: 0 <= k < |parts| ==> sep !in parts[k]
    ensures Count(Join(parts, sep), sep) == |parts| - 1
    decreases |parts|
  {
    CountAbsent(parts[0], sep);
    if |parts| > 1 {
      CountJoin(parts[1..], sep);
      CountConcat(parts[0] + [sep], Join(parts[1..], sep), sep);
      CountConcat(parts[0], [sep], sep);
      assert [sep][1..] == [];
    }
  }

  /** A join of two-character parts: position `k` holds the separator when
      `k % 3 == 2` and otherwise character `k % 3` of part `k / 3`. */
  lemma {:induction false} JoinPairsAt(parts: seq<string>, sep: char)
    requires |parts| >= 1
    requires forall k :: 0 <= k < |parts| ==> |parts[k]| == 2
    ensures |Join(parts, sep)| == 3 * |parts| - 1
    ensures forall k :: 0 <= k < |Join(parts, sep)| ==>
              Join(parts, sep)[k] == if k % 3 == 2 then sep else parts[k / 3][k % 3]
    decreases |parts|
  {
    if |parts| > 1 {
      var tail := Join(parts[1..], sep);
      JoinPairsAt(parts[1..], sep);
      var s := Join(parts, sep);
      assert s == parts[0] + [sep] + tail;
      forall k | 0 <= k < |s|
        ensures s[k] == if k % 3 == 2 then sep else parts[k / 3][k % 3]
      {
        if k >= 3 {
          assert s[k] == tail[k - 3];
          assert (k - 3) % 3 == k % 3 && (k - 3) / 3 == k / 3 - 1;
          assert parts[1..][k / 3 - 1] == parts[k / 3];
        }
      }
    }
  }
}
