/** The JavaScript built-ins the controllers lean on: truthiness of request
    fields, String.prototype.trim / toLowerCase / split, Array filter, and
    Buffer.toString('hex'). */
module Common {

  datatype Option<T> = None | Some(value: T) {
    function GetOr(default: T): T {
      if Some? then value else default
    }
  }

  /** A JSON value as it arrives in a request body. */
  datatype Json = JNull | JBool(b: bool) | JNum(n: int) | JStr(s: string) | JArr(items: seq<Json>) | JObj(fields: map<string, Json>)

  /** JavaScript's `!!v`: null, false, 0 and "" are falsy, everything else truthy. */
  predicate Truthy(v: Json) {
    match v
    case JNull => false
    case JBool(b) => b
    case JNum(n) => n != 0
    case JStr(s) => s != ""
    case _ => true
  }

  /** A string field of the request body that is present and not empty (`if (!x)` fails otherwise). */
  predicate Present(o: Option<string>) {
    o.Some? && o.value != ""
  }

  // ----- whitespace and trim -----

  /** The WhiteSpace and LineTerminator code points that String.prototype.trim removes. */
  predicate IsSpace(c: char) {
    || c == '\t' || c == '\n' || c == '\U{B}' || c == '\U{C}' || c == '\r' || c == ' '
    || c == '\U{A0}' || c == '\U{1680}' || ('\U{2000}' <= c <= '\U{200A}')
    || c == '\U{2028}' || c == '\U{2029}' || c == '\U{202F}' || c == '\U{205F}'
    || c == '\U{3000}' || c == '\U{FEFF}'
  }

  predicate AllSpace(s: string) {
    forall k :: 0 <= k < |s| ==> IsSpace(s[k])
  }

  /** Neither starts nor ends with whitespace. */
  predicate IsTrimmed(s: string) {
    s == [] || (!IsSpace(s[0]) && !IsSpace(s[|s| - 1]))
  }

  function TrimStart(s: string): (r: string)
    ensures |r| <= |s| && r == s[|s| - |r|..]
    ensures r == [] || !IsSpace(r[0])
    ensures r == [] <==> AllSpace(s)
  {
    if |s| > 0 && IsSpace(s[0]) then
      assert AllSpace(s) <==> AllSpace(s[1..]) by {
        assert forall k :: 0 < k < |s| ==> s[k] == s[1..][k - 1];
      }
      TrimStart(s[1..])
    else s
  }

  function TrimEnd(s: string): (r: string)
    ensures |r| <= |s| && r == s[..|r|]
    ensures r == [] || !IsSpace(r[|r| - 1])
    ensures r == [] <==> AllSpace(s)
  {
    if |s| > 0 && IsSpace(s[|s| - 1]) then
      assert AllSpace(s) <==> AllSpace(s[..|s| - 1]) by {
        assert forall k :: 0 <= k < |s| - 1 ==> s[k] == s[..|s| - 1][k];
      }
      TrimEnd(s[..|s| - 1])
    else s
  }

  /** String.prototype.trim: drops leading and trailing whitespace. */
  function Trim(s: string): (r: string)
    ensures IsTrimmed(r)
    ensures r == [] <==> AllSpace(s)
  {
    var a := TrimStart(s);
    var r := TrimEnd(a);
    assert AllSpace(a) <==> a == [];
    assert r != [] ==> r[0] == a[0];
    r
  }

  /** What TrimStart drops is whitespace. */
  lemma {:induction false} TrimStartDropsSpace(s: string)
    ensures AllSpace(s[..|s| - |TrimStart(s)|])
  {
    if |s| > 0 && IsSpace(s[0]) {
      TrimStartDropsSpace(s[1..]);
      var n := |s| - |TrimStart(s)|;
      forall k | 0 < k < n ensures IsSpace(s[k]) {
        assert s[k] == s[1..][..n - 1][k - 1];
      }
    }
  }

  /** What TrimEnd drops is whitespace. */
  lemma {:induction false} TrimEndDropsSpace(s: string)
    ensures AllSpace(s[|TrimEnd(s)|..])
  {
    if |s| > 0 && IsSpace(s[|s| - 1]) {
      TrimEndDropsSpace(s[..|s| - 1]);
      var n := |TrimEnd(s)|;
      forall k | n <= k < |s| - 1 ensures IsSpace(s[k]) {
        assert s[k] == s[..|s| - 1][n..][k - n];
      }
    }
  }

  /** Trim keeps a contiguous run of the input and drops only whitespace
      around it. */
  lemma TrimDropsOnlyOuterSpace(s: string)
    ensures exists i, j :: 0 <= i <= j <= |s| && Trim(s) == s[i..j] && AllSpace(s[..i]) && AllSpace(s[j..])
  {
    var a := TrimStart(s);
    var r := TrimEnd(a);
    TrimStartDropsSpace(s);
    TrimEndDropsSpace(a);
    var i, j := |s| - |a|, |s| - |a| + |r|;
    assert r == s[i..j];
    assert s[j..] == a[|r|..];
  }

  /** A character the input lacks is not in its trim either. */
  lemma TrimKeepsOut(s: string, c: char)
    requires c !in s
    ensures c !in Trim(s)
  {
    TrimDropsOnlyOuterSpace(s);
  }

  /** A string without outer whitespace is left as it is. */
  lemma TrimOfTrimmed(s: string)
    requires IsTrimmed(s)
    ensures Trim(s) == s
  {
    assert TrimStart(s) == s;
  }

  lemma TrimIdempotent(s: string)
    ensures Trim(Trim(s)) == Trim(s)
  {
    TrimOfTrimmed(Trim(s));
  }

  // ----- ASCII lower-casing -----

  function LowerChar(c: char): char {
    if 'A' <= c <= 'Z' then (c as int + 32) as char else c
  }

  /** String.prototype.toLowerCase, restricted to the ASCII letters. */
  function ToLower(s: string): (r: string)
    ensures |r| == |s|
    ensures forall k :: 0 <= k < |s| ==> r[k] == LowerChar(s[k])
  {
    if s == [] then [] else [LowerChar(s[0])] + ToLower(s[1..])
  }

  lemma ToLowerIdempotent(s: string)
    ensures ToLower(ToLower(s)) == ToLower(s)
  {
  }

  // ----- string length as JavaScript counts it -----

  /** A code point beyond the Basic Multilingual Plane takes two UTF-16 code units. */
  predicate IsAstral(c: char) {
    c as int >= 0x1_0000
  }

  /** String.prototype.length: UTF-16 code units, one per code point in the
      Basic Multilingual Plane and two (a surrogate pair) per code point
      beyond it. */
  function Utf16Length(s: string): (n: nat)
    ensures |s| <= n <= 2 * |s|
    ensures (forall k :: 0 <= k < |s| ==> !IsAstral(s[k])) ==> n == |s|
    ensures (forall k :: 0 <= k < |s| ==> IsAstral(s[k])) ==> n == 2 * |s|
  {
    if s == [] then 0
    else
      assert forall k :: 1 <= k < |s| ==> s[1..][k - 1] == s[k];
      (if IsAstral(s[0]) then 2 else 1) + Utf16Length(s[1..])
  }

  // ----- split, join and the comma-list idiom -----

  /** String.prototype.split with a one-character separator: always at least
      one piece, and no piece contains the separator ("" splits to [""]). */
  function Split(s: string, sep: char): (parts: seq<string>)
    ensures |parts| >= 1
    ensures forall k :: 0 <= k < |parts| ==> sep !in parts[k]
  {
    if |s| == 0 then [""]
    else
      var rest := Split(s[1..], sep);
      if s[0] == sep then [""] + rest
      else [[s[0]] + rest[0]] + rest[1..]
  }

  /** Array.prototype.join, the inverse of Split. */
  function Join(parts: seq<string>, sep: char): (s: string)
    requires |parts| >= 1
  {
    if |parts| == 1 then parts[0] else parts[0] + [sep] + Join(parts[1..], sep)
  }

  lemma {:induction false} JoinSplit(s: string, sep: char)
    ensures Join(Split(s, sep), sep) == s
  {
    if |s| > 0 {
      JoinSplit(s[1..], sep);
      var rest := Split(s[1..], sep);
      if s[0] != sep {
        if |rest| == 1 {
        } else {
          assert Join(rest, sep) == rest[0] + [sep] + Join(rest[1..], sep);
          assert [[s[0]] + rest[0]] + rest[1..] == [[s[0]] + rest[0]] + rest[1..];
          assert ([[s[0]] + rest[0]] + rest[1..])[1..] == rest[1..];
        }
      } else {
        assert ([""] + rest)[1..] == rest;
      }
    }
  }

  lemma {:induction false} SplitNoSep(a: string, sep: char)
    requires sep !in a
    ensures Split(a, sep) == [a]
  {
    if |a| > 0 {
      SplitNoSep(a[1..], sep);
      assert [a[0]] + a[1..] == a;
    }
  }

  lemma {:induction false} SplitAtSep(a: string, b: string, sep: char)
    requires sep !in a
    ensures Split(a + [sep] + b, sep) == [a] + Split(b, sep)
  {
    if |a| == 0 {
      assert a + [sep] + b == [sep] + b;
      assert ([sep] + b)[1..] == b;
    } else {
      SplitAtSep(a[1..], b, sep);
      assert (a + [sep] + b)[1..] == a[1..] + [sep] + b;
      assert [a[0]] + a[1..] == a;
    }
  }

  lemma {:induction false} SplitJoin(parts: seq<string>, sep: char)
    requires |parts| >= 1
    requires forall k :: 0 <= k < |parts| ==> sep !in parts[k]
    ensures Split(Join(parts, sep), sep) == parts
  {
    if |parts| == 1 {
      SplitNoSep(parts[0], sep);
    } else {
      SplitJoin(parts[1..], sep);
      SplitAtSep(parts[0], Join(parts[1..], sep), sep);
      assert [parts[0]] + parts[1..] == parts;
    }
  }

  /** Whatever follows the last separator is the last piece. */
  lemma {:induction false} SplitLastPiece(a: string, b: string, sep: char)
    requires sep !in b
    ensures |Split(a + [sep] + b, sep)| >= 2
    ensures Split(a + [sep] + b, sep)[|Split(a + [sep] + b, sep)| - 1] == b
  {
    if |a| == 0 {
      assert a + [sep] + b == [sep] + b;
      assert ([sep] + b)[1..] == b;
      SplitNoSep(b, sep);
    } else {
      SplitLastPiece(a[1..], b, sep);
      assert (a + [sep] + b)[1..] == a[1..] + [sep] + b;
    }
  }

  /** `.map(s => s.trim())` */
  function TrimAll(xs: seq<string>): (ys: seq<string>)
    ensures |ys| == |xs|
    ensures forall k :: 0 <= k < |xs| ==> ys[k] == Trim(xs[k])
  {
    if xs == [] then [] else [Trim(xs[0])] + TrimAll(xs[1..])
  }

  /** `.filter(Boolean)` on strings: keeps the non-empty ones, in order. */
  function DropEmpty(xs: seq<string>): (ys: seq<string>)
    ensures |ys| <= |xs|
    ensures forall k :: 0 <= k < |ys| ==> ys[k] != "" && ys[k] in xs
    ensures (forall k :: 0 <= k < |xs| ==> xs[k] != "") ==> ys == xs
    ensures forall x :: x in ys <==> x in xs && x != ""
  {
    if xs == [] then []
    else if xs[0] == "" then DropEmpty(xs[1..])
    else [xs[0]] + DropEmpty(xs[1..])
  }

  /** Filtering a concatenation filters each part and keeps them in order. */
  lemma {:induction false} DropEmptyConcat(xs: seq<string>, zs: seq<string>)
    ensures DropEmpty(xs + zs) == DropEmpty(xs) + DropEmpty(zs)
  {
    if xs == [] {
      assert xs + zs == zs;
    } else {
      assert (xs + zs)[0] == xs[0];
      assert (xs + zs)[1..] == xs[1..] + zs;
      DropEmptyConcat(xs[1..], zs);
    }
  }

  /** `String(v).split(',').map(s => s.trim()).filter(Boolean)`. */
  function ParseCommaList(s: string): (items: seq<string>)
    ensures forall k :: 0 <= k < |items| ==> items[k] != "" && IsTrimmed(items[k]) && ',' !in items[k]
    ensures AllSpace(s) ==> items == []
  {
    var pieces := Split(s, ',');
    var trimmed := TrimAll(pieces);
    var items := DropEmpty(trimmed);
    forall k | 0 <= k < |items| ensures IsTrimmed(items[k]) && ',' !in items[k] {
      assert items[k] in trimmed;
      var j :| 0 <= j < |trimmed| && trimmed[j] == items[k];
      TrimKeepsOut(pieces[j], ',');
    }
    assert AllSpace(s) ==> items == [] by {
      if AllSpace(s) {
        assert forall k :: 0 <= k < |s| ==> s[k] != ',' by {
          forall k | 0 <= k < |s| ensures s[k] != ',' {
            assert IsSpace(s[k]);
          }
        }
        SplitNoSep(s, ',');
      }
    }
    items
  }

  /** Joining items that are non-empty, trimmed and comma-free with ","
      and parsing the result gives the items back. */
  lemma {:induction false} ParseJoinedList(items: seq<string>)
    requires |items| >= 1
    requires forall k :: 0 <= k < |items| ==> items[k] != "" && IsTrimmed(items[k]) && ',' !in items[k]
    ensures ParseCommaList(Join(items, ',')) == items
  {
    SplitJoin(items, ',');
    assert Split(Join(items, ','), ',') == items;
    assert TrimAll(items) == items;
    assert DropEmpty(items) == items;
  }

  /** A text with no comma parses to its trimmed self, or to nothing. */
  lemma ParseSingleItem(s: string)
    requires ',' !in s
    ensures ParseCommaList(s) == if AllSpace(s) then [] else [Trim(s)]
  {
    SplitNoSep(s, ',');
  }

  // ----- removing every occurrence -----

  function Count<T(==)>(s: seq<T>, x: T): (n: nat)
    ensures n <= |s|
    ensures n == 0 <==> x !in s
  {
    if s == [] then 0 else (if s[0] == x then 1 else 0) + Count(s[1..], x)
  }

  /** `s.filter(y => !y.equals(x))`: drops every occurrence of x and keeps the rest in order. */
  function RemoveAll<T(==,!new)>(s: seq<T>, x: T): (r: seq<T>)
    ensures x !in r
    ensures |r| == |s| - Count(s, x)
    ensures forall y :: y in r <==> y in s && y != x
    ensures x !in s ==> r == s
  {
    if s == [] then []
    else if s[0] == x then RemoveAll(s[1..], x)
    else [s[0]] + RemoveAll(s[1..], x)
  }

  predicate NoDuplicates<T(==)>(s: seq<T>) {
    forall i, j :: 0 <= i < j < |s| ==> s[i] != s[j]
  }

  lemma {:induction false} RemoveAllKeepsNoDuplicates<T(!new)>(s: seq<T>, x: T)
    requires NoDuplicates(s)
    ensures NoDuplicates(RemoveAll(s, x))
  {
    if s != [] {
      RemoveAllKeepsNoDuplicates(s[1..], x);
      var rest := RemoveAll(s[1..], x);
      if s[0] != x {
        assert s[0] !in s[1..];
        assert s[0] !in rest;
        var r := [s[0]] + rest;
        forall i, j | 0 <= i < j < |r| ensures r[i] != r[j] {
          if i == 0 {
            assert r[j] == rest[j - 1];
          } else {
            assert r[i] == rest[i - 1] && r[j] == rest[j - 1];
          }
        }
      }
    }
  }

  /** Appending an absent element and then removing it gives the sequence back. */
  lemma {:induction false} RemoveAllAppended<T(!new)>(s: seq<T>, x: T)
    requires x !in s
    ensures RemoveAll(s + [x], x) == s
  {
    if s == [] {
      assert [] + [x] == [x];
    } else {
      RemoveAllAppended(s[1..], x);
      assert (s + [x])[1..] == s[1..] + [x];
      assert [s[0]] + s[1..] == s;
    }
  }

  /** A list without repetitions holds any one element at most once. */
  lemma {:induction false} CountAtMostOne<T>(s: seq<T>, x: T)
    requires NoDuplicates(s)
    ensures Count(s, x) <= 1
  {
    if s != [] {
      assert NoDuplicates(s[1..]) by {
        forall i, j | 0 <= i < j < |s[1..]| ensures s[1..][i] != s[1..][j] {
          assert s[1..][i] == s[i + 1] && s[1..][j] == s[j + 1];
        }
      }
      CountAtMostOne(s[1..], x);
      if s[0] == x {
        assert forall j :: 0 <= j < |s[1..]| ==> s[1..][j] != x by {
          forall j | 0 <= j < |s[1..]| ensures s[1..][j] != x {
            assert s[1..][j] == s[j + 1] && 0 < j + 1;
          }
        }
      }
    }
  }

  // ----- hex encoding (Buffer.toString('hex')) -----

  type Byte = b: int | 0 <= b < 256

  predicate IsHexDigit(c: char) {
    '0' <= c <= '9' || 'a' <= c <= 'f'
  }

  predicate IsLowerHex(s: string) {
    forall k :: 0 <= k < |s| ==> IsHexDigit(s[k])
  }

  function HexDigit(n: int): (c: char)
    requires 0 <= n < 16
    ensures IsHexDigit(c)
  {
    if n < 10 then ('0' as int + n) as char else ('a' as int + n - 10) as char
  }

  function DigitValue(c: char): (v: int)
    requires IsHexDigit(c)
    ensures 0 <= v < 16 && HexDigit(v) == c
  {
    if '0' <= c <= '9' then c as int - '0' as int else c as int - 'a' as int + 10
  }

  /** Two lower-case hex digits per byte, high nibble first. */
  function Hex(bytes: seq<Byte>): (s: string)
    ensures |s| == 2 * |bytes|
    ensures IsLowerHex(s)
  {
    if bytes == [] then "" else [HexDigit(bytes[0] / 16), HexDigit(bytes[0] % 16)] + Hex(bytes[1..])
  }

  function Unhex(s: string): (bytes: seq<Byte>)
    requires |s| % 2 == 0 && IsLowerHex(s)
    ensures |bytes| == |s| / 2
  {
    if s == [] then [] else [DigitValue(s[0]) * 16 + DigitValue(s[1])] + Unhex(s[2..])
  }

  lemma {:induction false} UnhexHex(bytes: seq<Byte>)
    ensures Unhex(Hex(bytes)) == bytes
  {
    if bytes != [] {
      UnhexHex(bytes[1..]);
      var s := Hex(bytes);
      assert s[2..] == Hex(bytes[1..]);
      assert DigitValue(s[0]) == bytes[0] / 16;
      assert DigitValue(s[1]) == bytes[0] % 16;
    }
  }

  lemma HexInjective(a: seq<Byte>, b: seq<Byte>)
    ensures Hex(a) == Hex(b) <==> a == b
  {
    UnhexHex(a);
    UnhexHex(b);
  }
}
