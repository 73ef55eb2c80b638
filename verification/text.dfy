/** String helpers with JavaScript semantics: `trim`, `toLowerCase`,
    `includes`, `startsWith`, `split`, `join`, `String(n)` and `parseInt`. */
module Text {
  import opened Wrappers
  import Seqs

  // ---------------------------------------------------------------------
  // Whitespace and trim
  // ---------------------------------------------------------------------

  /** The characters `String.prototype.trim` removes: the ECMAScript
      WhiteSpace and LineTerminator code points. */
  predicate IsWhite(c: char) {
    var n := c as int;
    n == 0x09 || n == 0x0A || n == 0x0B || n == 0x0C || n == 0x0D || n == 0x20
    || n == 0xA0 || n == 0x1680 || (0x2000 <= n <= 0x200A)
    || n == 0x2028 || n == 0x2029 || n == 0x202F || n == 0x205F
    || n == 0x3000 || n == 0xFEFF
  }

  function TrimStart(s: string): string
    decreases |s|
  {
    if |s| > 0 && IsWhite(s[0]) then TrimStart(s[1..]) else s
  }

  function TrimEnd(s: string): string
    decreases |s|
  {
    if |s| > 0 && IsWhite(s[|s| - 1]) then TrimEnd(s[..|s| - 1]) else s
  }

  /** `s.trim()`. */
  function Trim(s: string): string {
    TrimEnd(TrimStart(s))
  }

  /** Neither end of `s` is whitespace. */
  predicate IsTrimmed(s: string) {
    |s| == 0 || (!IsWhite(s[0]) && !IsWhite(s[|s| - 1]))
  }

  /** `!s.trim()`: the string is empty or all whitespace. */
  predicate IsBlank(s: string) {
    Trim(s) == ""
  }

  lemma {:induction false} TrimStartShape(s: string)
    ensures |TrimStart(s)| <= |s|
    ensures TrimStart(s) == s[|s| - |TrimStart(s)|..]
    ensures |TrimStart(s)| > 0 ==> !IsWhite(TrimStart(s)[0])
    ensures forall i :: 0 <= i < |s| - |TrimStart(s)| ==> IsWhite(s[i])
    decreases |s|
  {
    if |s| > 0 && IsWhite(s[0]) {
      TrimStartShape(s[1..]);
    }
  }

  lemma {:induction false} TrimEndShape(s: string)
    ensures |TrimEnd(s)| <= |s|
    ensures TrimEnd(s) == s[..|TrimEnd(s)|]
    ensures |TrimEnd(s)| > 0 ==> !IsWhite(TrimEnd(s)[|TrimEnd(s)| - 1])
    ensures forall i :: |TrimEnd(s)| <= i < |s| ==> IsWhite(s[i])
    decreases |s|
  {
    if |s| > 0 && IsWhite(s[|s| - 1]) {
      TrimEndShape(s[..|s| - 1]);
    }
  }

  /** The result of `trim` has no whitespace at either end, and trimming a
      string that has none changes nothing. */
  lemma TrimIsTrimmed(s: string)
    ensures IsTrimmed(Trim(s))
    ensures |Trim(s)| <= |s|
  {
    TrimStartShape(s);
    TrimEndShape(TrimStart(s));
    var t := TrimStart(s);
    var u := TrimEnd(t);
    if |u| > 0 {
      assert u[0] == t[0];
    }
  }

  lemma {:induction false} TrimOfTrimmed(s: string)
    requires IsTrimmed(s)
    ensures Trim(s) == s
  {
  }

  /** `trim` is idempotent. */
  lemma TrimIdempotent(s: string)
    ensures Trim(Trim(s)) == Trim(s)
  {
    TrimIsTrimmed(s);
    TrimOfTrimmed(Trim(s));
  }

  /** A string that starts with a non-blank character is not blank. */
  lemma NonWhiteStart(s: string)
    requires |s| > 0 && !IsWhite(s[0])
    ensures !IsBlank(s)
  {
    assert TrimStart(s) == s;
    TrimEndShape(s);
    assert |TrimEnd(s)| > 0;
  }

  /** A leading blank in front of a trimmed, non-empty word is removed by
      `trim`. */
  lemma TrimSpaced(t: string)
    requires IsTrimmed(t) && t != ""
    ensures Trim(" " + t) == t
  {
    var st := " " + t;
    assert st[0] == ' ' && IsWhite(st[0]);
    assert st[1..] == t;
    assert TrimStart(st) == TrimStart(t);
    assert TrimStart(t) == t;
    assert TrimEnd(t) == t;
  }

  // ---------------------------------------------------------------------
  // Case and substring tests
  // ---------------------------------------------------------------------

  /** `toLowerCase` on one character (ASCII letters only). */
  function LowerChar(c: char): char {
    if 'A' <= c <= 'Z' then (c as int + 32) as char else c
  }

  /** `s.toLowerCase()`. */
  function Lower(s: string): (r: string)
    ensures |r| == |s|
    ensures forall i :: 0 <= i < |s| ==> r[i] == LowerChar(s[i])
  {
    Seqs.Map(LowerChar, s)
  }

  /** Lower-casing a string without capitals changes nothing. */
  lemma LowerOfLowercase(s: string)
    requires forall i :: 0 <= i < |s| ==> !('A' <= s[i] <= 'Z')
    ensures Lower(s) == s
  {
    assert forall i :: 0 <= i < |s| ==> Lower(s)[i] == s[i];
  }

  lemma LowerIdempotent(s: string)
    ensures Lower(Lower(s)) == Lower(s)
  {
  }

  /** Lower-casing keeps whitespace and non-whitespace apart. */
  lemma LowerCharWhite(c: char)
    ensures IsWhite(LowerChar(c)) <==> IsWhite(c)
  {
  }

  /** Lower-casing keeps a trimmed string trimmed. */
  lemma LowerTrimmed(s: string)
    requires IsTrimmed(s)
    ensures IsTrimmed(Lower(s))
  {
    if |s| > 0 {
      LowerCharWhite(s[0]);
      LowerCharWhite(s[|s| - 1]);
    }
  }

  /** `s.startsWith(p)`. */
  predicate StartsWith(s: string, p: string) {
    |p| <= |s| && s[..|p|] == p
  }

  /** `s.endsWith(p)`. */
  predicate EndsWith(s: string, p: string) {
    |p| <= |s| && s[|s| - |p|..] == p
  }

  /** `s.includes(sub)`: `sub` occurs at some position of `s`. */
  predicate Contains(s: string, sub: string)
    decreases |s|
  {
    StartsWith(s, sub) || (|s| > 0 && Contains(s[1..], sub))
  }

  /** The empty string occurs in every string. */
  lemma ContainsEmpty(s: string)
    ensures Contains(s, "")
  {
  }

  /** Every string occurs in itself. */
  lemma ContainsSelf(s: string)
    ensures Contains(s, s)
  {
  }

  /** Case-insensitive containment as the source writes it:
      `a.toLowerCase().includes(b.toLowerCase())`. */
  predicate ContainsCi(a: string, b: string) {
    Contains(Lower(a), Lower(b))
  }

  // ---------------------------------------------------------------------
  // split and join
  // ---------------------------------------------------------------------

  /** `s.split(c)` for a one-character separator: always at least one
      piece, and no piece contains the separator. */
  function Split(s: string, c: char): (r: seq<string>)
    ensures |r| >= 1
    ensures forall i :: 0 <= i < |r| ==> c !in r[i]
    decreases |s|
  {
    if |s| == 0 then [""]
    else
      var rest := Split(s[1..], c);
      if s[0] == c then [""] + rest
      else [[s[0]] + rest[0]] + rest[1..]
  }

  /** Joining the pieces with the separator gives the string back. */
  lemma {:induction false} JoinSplit(s: string, c: char)
    ensures Join(Split(s, c), [c]) == s
    decreases |s|
  {
    if |s| > 0 {
      var rest := Split(s[1..], c);
      JoinSplit(s[1..], c);
      if s[0] == c {
        JoinCons("", rest, [c]);
      } else {
        JoinExtendFirst(s[0], rest, [c]);
      }
      assert s == [s[0]] + s[1..];
    }
  }

  /** A part in front adds itself and one separator. */
  lemma JoinCons(p: string, rest: seq<string>, sep: string)
    requires |rest| >= 1
    ensures Join([p] + rest, sep) == p + sep + Join(rest, sep)
  {
    assert ([p] + rest)[1..] == rest;
  }

  /** A character in front of the first part is in front of the join. */
  lemma JoinExtendFirst(x: char, rest: seq<string>, sep: string)
    requires |rest| >= 1
    ensures Join([[x] + rest[0]] + rest[1..], sep) == [x] + Join(rest, sep)
  {
    assert ([[x] + rest[0]] + rest[1..])[1..] == rest[1..];
  }

  /** `parts.join(sep)`. */
  function Join(parts: seq<string>, sep: string): string {
    if |parts| == 0 then "" else parts[0] + JoinRest(parts[1..], sep)
  }

  /** Each part preceded by the separator. */
  function JoinRest(parts: seq<string>, sep: string): string
    decreases |parts|
  {
    if |parts| == 0 then "" else sep + parts[0] + JoinRest(parts[1..], sep)
  }

  /** A first character other than the separator joins the first piece. */
  lemma SplitCons(x: char, t: string, c: char)
    requires x != c
    ensures Split([x] + t, c) == [[x] + Split(t, c)[0]] + Split(t, c)[1..]
  {
    assert ([x] + t)[1..] == t;
  }

  lemma {:induction false} SplitPrefix(w: string, s: string, c: char)
    requires c !in w
    ensures Split(w + s, c) == [w + Split(s, c)[0]] + Split(s, c)[1..]
    decreases |w|
  {
    if |w| > 0 {
      var r := Split(s, c);
      SplitPrefix(w[1..], s, c);
      var rw := Split(w[1..] + s, c);
      assert rw[0] == w[1..] + r[0] && rw[1..] == r[1..];
      assert w + s == [w[0]] + (w[1..] + s);
      SplitCons(w[0], w[1..] + s, c);
      assert [w[0]] + (w[1..] + r[0]) == w + r[0];
    } else {
      assert w + s == s;
      var r := Split(s, c);
      assert r == [r[0]] + r[1..];
      assert w + r[0] == r[0];
    }
  }

  lemma {:induction false} SplitJoinRest(w: string, parts: seq<string>, c: char)
    requires c !in w
    requires forall i :: 0 <= i < |parts| ==> c !in parts[i]
    ensures Split(w + JoinRest(parts, [c]), c) == [w] + parts
    decreases |parts|
  {
    if |parts| == 0 {
      SplitPrefix(w, "", c);
      assert w + "" == w;
      assert Split("", c) == [""];
      assert JoinRest(parts, [c]) == "";
      assert [w] + parts == [w];
    } else {
      var tail := parts[0] + JoinRest(parts[1..], [c]);
      assert JoinRest(parts, [c]) == [c] + tail;
      SplitJoinRest(parts[0], parts[1..], c);
      assert Split([c] + tail, c) == [""] + Split(tail, c) by {
        assert ([c] + tail)[1..] == tail;
      }
      SplitPrefix(w, [c] + tail, c);
      var r := Split([c] + tail, c);
      assert r[0] == "" && r[1..] == Split(tail, c);
      assert w + r[0] == w;
      assert w + JoinRest(parts, [c]) == w + ([c] + tail);
      assert [parts[0]] + parts[1..] == parts;
    }
  }

  lemma {:induction false} NoCharInJoinRest(parts: seq<string>, sep: string, d: char)
    requires d !in sep
    requires forall i :: 0 <= i < |parts| ==> d !in parts[i]
    ensures d !in JoinRest(parts, sep)
    decreases |parts|
  {
    if |parts| > 0 {
      NoCharInJoinRest(parts[1..], sep, d);
    }
  }

  /** A character in neither the parts nor the separator is not in their
      join. */
  lemma NoCharInJoin(parts: seq<string>, sep: string, d: char)
    requires d !in sep
    requires forall i :: 0 <= i < |parts| ==> d !in parts[i]
    ensures d !in Join(parts, sep)
  {
    if |parts| > 0 {
      NoCharInJoinRest(parts[1..], sep, d);
    }
  }

  /** Splitting a join on a separator that occurs in no part gives the parts
      back. */
  lemma SplitJoin(parts: seq<string>, c: char)
    requires |parts| >= 1
    requires forall i :: 0 <= i < |parts| ==> c !in parts[i]
    ensures Split(Join(parts, [c]), c) == parts
  {
    SplitJoinRest(parts[0], parts[1..], c);
  }

  // ---------------------------------------------------------------------
  // Comma-separated lists
  // ---------------------------------------------------------------------

  function Nonempty(s: string): bool { s != "" }

  /** `s.split(c).map(t => t.trim()).filter(t => t)`: the trimmed,
      non-empty pieces. */
  function SplitTrimmed(s: string, c: char): (r: seq<string>)
    ensures forall i :: 0 <= i < |r| ==> r[i] != "" && c !in r[i]
  {
    var pieces := Split(s, c);
    var trimmed := Seqs.Map(Trim, pieces);
    forall i | 0 <= i < |trimmed|
      ensures c !in trimmed[i]
    {
      TrimSub(pieces[i], c);
    }
    Seqs.Filter(Nonempty, trimmed)
  }

  lemma TrimSub(s: string, c: char)
    requires c !in s
    ensures c !in Trim(s)
  {
    TrimStartShape(s);
    TrimEndShape(TrimStart(s));
  }

  /** A word that may appear in a list and survive a join/split round trip:
      non-empty, trimmed and free of the separator. */
  predicate IsListWord(t: string, c: char) {
    t != "" && IsTrimmed(t) && c !in t
  }

  function Spaced(t: string): string { " " + t }

  lemma {:induction false} JoinRestSpaced(parts: seq<string>)
    ensures JoinRest(parts, ", ") == JoinRest(Seqs.Map(Spaced, parts), ",")
    decreases |parts|
  {
    if |parts| > 0 {
      JoinRestSpaced(parts[1..]);
      assert Seqs.Map(Spaced, parts)[1..] == Seqs.Map(Spaced, parts[1..]);
    }
  }

  /** Round trip of the list editors: joining words with ", " and parsing the
      text back with `SplitTrimmed` on ',' yields the same words. */
  lemma SplitTrimmedJoin(words: seq<string>)
    requires forall i :: 0 <= i < |words| ==> IsListWord(words[i], ',')
    ensures SplitTrimmed(Join(words, ", "), ',') == words
  {
    if |words| == 0 {
      assert Split("", ',') == [""];
      assert Seqs.Map(Trim, [""]) == [""];
    } else {
      var rest := Seqs.Map(Spaced, words[1..]);
      JoinRestSpaced(words[1..]);
      forall i | 0 <= i < |rest| ensures ',' !in rest[i] {
        assert rest[i] == " " + words[i + 1];
      }
      SplitJoinRest(words[0], rest, ',');
      var pieces := [words[0]] + rest;
      assert Split(Join(words, ", "), ',') == pieces;
      forall i | 0 <= i < |pieces| ensures Trim(pieces[i]) == words[i] {
        if i == 0 {
          TrimOfTrimmed(words[0]);
        } else {
          TrimSpaced(words[i]);
        }
      }
      assert Seqs.Map(Trim, pieces) == words;
      Seqs.FilterAll(Nonempty, words);
    }
  }

  /** Replace every occurrence of one character by another
      (`s.replace(/a/g, b)`). */
  function ReplaceChar(s: string, a: char, b: char): (r: string)
    ensures |r| == |s|
    ensures a != b ==> a !in r
    ensures forall i :: 0 <= i < |s| ==> r[i] == (if s[i] == a then b else s[i])
  {
    Seqs.Map((x: char) => if x == a then b else x, s)
  }

  // ---------------------------------------------------------------------
  // Numbers
  // ---------------------------------------------------------------------

  predicate IsDecimalDigit(c: char) { '0' <= c <= '9' }

  function DigitChar(d: nat): char
    requires d < 10
  {
    ('0' as int + d) as char
  }

  /** `String(n)` for a natural number: its decimal digits. */
  function NatToString(n: nat): (s: string)
    ensures |s| >= 1
    ensures forall i :: 0 <= i < |s| ==> IsDecimalDigit(s[i])
    decreases n
  {
    if n < 10 then [DigitChar(n)] else NatToString(n / 10) + [DigitChar(n % 10)]
  }

  /** `String(i)` for an integer. */
  function IntToString(i: int): string {
    if i < 0 then "-" + NatToString(-i) else NatToString(i)
  }

  /** The value of `c` as a digit of the given radix, or -1. */
  function DigitValue(c: char, radix: nat): int {
    var v :=
      if '0' <= c <= '9' then c as int - '0' as int
      else if 'a' <= c <= 'z' then c as int - 'a' as int + 10
      else if 'A' <= c <= 'Z' then c as int - 'A' as int + 10
      else -1;
    if 0 <= v < radix then v else -1
  }

  /** The longest prefix of `s` made of digits of `radix`. */
  function DigitPrefix(s: string, radix: nat): (r: string)
    ensures |r| <= |s| && r == s[..|r|]
    ensures forall i :: 0 <= i < |r| ==> DigitValue(r[i], radix) >= 0
    decreases |s|
  {
    if |s| > 0 && DigitValue(s[0], radix) >= 0 then [s[0]] + DigitPrefix(s[1..], radix) else ""
  }

  /** The number a digit string denotes. */
  function DigitsValue(ds: string, radix: nat): int
    decreases |ds|
  {
    if |ds| == 0 then 0
    else DigitsValue(ds[..|ds| - 1], radix) * radix + DigitValue(ds[|ds| - 1], radix)
  }

  /** `parseInt(s)` without a radix: leading whitespace, an optional sign,
      an optional `0x` prefix selecting radix 16, then the longest digit
      prefix. `None` is `NaN`. */
  function ParseInt(s: string): Option<int> {
    var t := TrimStart(s);
    var neg := |t| > 0 && t[0] == '-';
    var u := if |t| > 0 && (t[0] == '-' || t[0] == '+') then t[1..] else t;
    var hex := |u| >= 2 && u[0] == '0' && (u[1] == 'x' || u[1] == 'X');
    var radix := if hex then 16 else 10;
    var body := if hex then u[2..] else u;
    var ds := DigitPrefix(body, radix);
    if ds == "" then None
    else Some(if neg then -DigitsValue(ds, radix) else DigitsValue(ds, radix))
  }

  /** `parseInt(s, 10)`: like `ParseInt`, but with no hexadecimal prefix. */
  function ParseDecimal(s: string): Option<int> {
    var t := TrimStart(s);
    var neg := |t| > 0 && t[0] == '-';
    var u := if |t| > 0 && (t[0] == '-' || t[0] == '+') then t[1..] else t;
    var ds := DigitPrefix(u, 10);
    if ds == "" then None
    else Some(if neg then -DigitsValue(ds, 10) else DigitsValue(ds, 10))
  }

  /** `parseInt(s) || 0`: `NaN` (and `-0`) become 0. */
  function ParseIntOrZero(s: string): int {
    ParseInt(s).GetOr(0)
  }

  lemma {:induction false} DigitPrefixAll(s: string, radix: nat)
    requires forall i :: 0 <= i < |s| ==> DigitValue(s[i], radix) >= 0
    ensures DigitPrefix(s, radix) == s
    decreases |s|
  {
    if |s| > 0 {
      DigitPrefixAll(s[1..], radix);
    }
  }

  lemma {:induction false} NatToStringValue(n: nat)
    ensures DigitsValue(NatToString(n), 10) == n
    decreases n
  {
    if n >= 10 {
      NatToStringValue(n / 10);
      var s := NatToString(n);
      assert s[..|s| - 1] == NatToString(n / 10);
    }
  }

  /** `parseInt(String(n)) == n` for every natural number. */
  lemma ParseIntNatToString(n: nat)
    ensures ParseInt(NatToString(n)) == Some(n)
  {
    var s := NatToString(n);
    assert IsDecimalDigit(s[0]) && !IsWhite(s[0]);
    assert TrimStart(s) == s;
    assert s[0] != '-' && s[0] != '+';
    assert |s| >= 2 ==> IsDecimalDigit(s[1]) && s[1] != 'x' && s[1] != 'X';
    DigitPrefixAll(s, 10);
    NatToStringValue(n);
  }

  /** `parseInt(String(n), 10) == n` for every natural number. */
  lemma ParseDecimalNatToString(n: nat)
    ensures ParseDecimal(NatToString(n)) == Some(n)
  {
    var s := NatToString(n);
    assert IsDecimalDigit(s[0]) && !IsWhite(s[0]);
    assert TrimStart(s) == s;
    assert s[0] != '-' && s[0] != '+';
    DigitPrefixAll(s, 10);
    NatToStringValue(n);
  }

  // ---------------------------------------------------------------------
  // Ordering
  // ---------------------------------------------------------------------

  /** The order of the default `Array.prototype.sort` on strings:
      lexicographic by code unit, a proper prefix first. */
  predicate Less(a: string, b: string)
    decreases |a|
  {
    |b| > 0 && (|a| == 0 || a[0] < b[0] || (a[0] == b[0] && Less(a[1..], b[1..])))
  }

  lemma {:induction false} LessIrreflexive(a: string)
    ensures !Less(a, a)
    decreases |a|
  {
    if |a| > 0 {
      LessIrreflexive(a[1..]);
    }
  }

  lemma {:induction false} LessTransitive(a: string, b: string, c: string)
    requires Less(a, b) && Less(b, c)
    ensures Less(a, c)
    decreases |a|
  {
    if |a| > 0 && a[0] == b[0] && b[0] == c[0] {
      LessTransitive(a[1..], b[1..], c[1..]);
    }
  }

  lemma {:induction false} LessTotal(a: string, b: string)
    requires a != b
    ensures Less(a, b) || Less(b, a)
    decreases |a|
  {
    if |a| > 0 && |b| > 0 && a[0] == b[0] {
      assert a == [a[0]] + a[1..] && b == [b[0]] + b[1..];
      LessTotal(a[1..], b[1..]);
    }
  }

  /** Strictly increasing, hence also duplicate-free. */
  predicate StrictlySorted(s: seq<string>) {
    forall i, j :: 0 <= i < j < |s| ==> Less(s[i], s[j])
  }

  /** Insert `x` into a strictly sorted list unless it is already there. */
  function InsertSorted(x: string, s: seq<string>): (r: seq<string>)
    requires StrictlySorted(s)
    ensures StrictlySorted(r)
    ensures forall y :: y in r <==> y == x || y in s
    decreases |s|
  {
    if |s| == 0 then [x]
    else if x == s[0] then s
    else if Less(x, s[0]) then
      assert forall j :: 0 < j < |s| ==> Less(x, s[j]) by {
        forall j | 0 < j < |s| ensures Less(x, s[j]) { LessTransitive(x, s[0], s[j]); }
      }
      [x] + s
    else
      LessTotal(x, s[0]);
      var rest := InsertSorted(x, s[1..]);
      assert forall y :: y in s[1..] ==> Less(s[0], y);
      [s[0]] + rest
  }

  /** `Array.from(new Set(xs)).sort()`: the distinct elements, sorted. */
  function SortedSet(xs: seq<string>): (r: seq<string>)
    ensures StrictlySorted(r)
    ensures forall y :: y in r <==> y in xs
    decreases |xs|
  {
    if |xs| == 0 then []
    else InsertSorted(xs[0], SortedSet(xs[1..]))
  }

  /** A strictly sorted list has no duplicates. */
  lemma SortedDistinct(s: seq<string>)
    requires StrictlySorted(s)
    ensures Seqs.Distinct(s)
  {
    forall i, j | 0 <= i < j < |s| ensures s[i] != s[j] {
      if s[i] == s[j] {
        LessIrreflexive(s[i]);
      }
    }
  }
}
