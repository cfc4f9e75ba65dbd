/**
 * The JavaScript string operations the programs rely on (`startsWith`,
 * `includes`, `split`, `join`, `lastIndexOf`, `trim`, `toLowerCase`,
 * `padStart`, `Number.prototype.toString` and the `replace(/\/+/g, '/')`
 * idiom), written over `seq<char>`.
 */
module Text {

  /** `s.startsWith(p)` */
  predicate StartsWith(s: string, p: string)
  {
    |p| <= |s| && s[..|p|] == p
  }

  /** `s.includes(p)`: `p` occurs somewhere in `s` (the empty string occurs everywhere). */
  predicate Contains(s: string, p: string)
    decreases |s|
  {
    StartsWith(s, p) || (|s| > 0 && Contains(s[1..], p))
  }

  /** An occurrence of `p` at index `i` of `s` is what `Contains` finds. */
  lemma {:induction false} ContainsAt(s: string, p: string, i: nat)
    requires i + |p| <= |s| && s[i..i + |p|] == p
    ensures Contains(s, p)
    decreases i
  {
    if i > 0 {
      assert s[1..][i - 1..i - 1 + |p|] == s[i..i + |p|];
      ContainsAt(s[1..], p, i - 1);
    } else {
      assert s[..|p|] == p;
    }
  }

  /** Whatever `Contains` finds is an occurrence at some index. */
  lemma {:induction false} ContainsWitness(s: string, p: string) returns (i: nat)
    requires Contains(s, p)
    ensures i + |p| <= |s| && s[i..i + |p|] == p
    decreases |s|
  {
    if StartsWith(s, p) {
      i := 0;
    } else {
      var j := ContainsWitness(s[1..], p);
      assert s[1..][j..j + |p|] == s[j + 1..j + 1 + |p|];
      i := j + 1;
    }
  }

  /** `s.split(c)` for a one-character separator: every piece between separators, empty ones included. */
  function Split(s: string, c: char): (parts: seq<string>)
    ensures |parts| >= 1
    ensures forall i :: 0 <= i < |parts| ==> c !in parts[i]
  {
    if s == [] then [""]
    else
      var rest := Split(s[1..], c);
      if s[0] == c then [""] + rest
      else [[s[0]] + rest[0]] + rest[1..]
  }

  /** `parts.join(sep)` */
  function Join(parts: seq<string>, sep: string): string
  {
    if |parts| == 0 then ""
    else if |parts| == 1 then parts[0]
    else parts[0] + sep + Join(parts[1..], sep)
  }

  /** Joining the pieces of a split with the separator gives back the string. */
  lemma {:induction false} JoinSplit(s: string, c: char)
    ensures Join(Split(s, c), [c]) == s
  {
    if s != [] {
      JoinSplit(s[1..], c);
      var rest := Split(s[1..], c);
      if s[0] != c {
        if |rest| > 1 {
          assert Join(rest, [c]) == rest[0] + [c] + Join(rest[1..], [c]);
        }
      }
    }
  }

  /** Splitting at one separator splits the two sides independently. */
  lemma {:induction false} SplitAround(x: string, c: char, y: string)
    ensures Split(x + [c] + y, c) == Split(x, c) + Split(y, c)
  {
    if x == [] {
      assert x + [c] + y == [c] + y;
      assert ([c] + y)[1..] == y;
    } else {
      SplitAround(x[1..], c, y);
      assert x == [x[0]] + x[1..];
      assert x + [c] + y == [x[0]] + (x[1..] + [c] + y);
      SplitCons(x[0], x[1..] + [c] + y, c);
      SplitCons(x[0], x[1..], c);
      GlueFront([x[0]], Split(x[1..], c), Split(y, c));
    }
  }

  /** Gluing a prefix onto the first piece commutes with appending more pieces. */
  lemma GlueFront(h: string, left: seq<string>, right: seq<string>)
    requires |left| >= 1
    ensures [h + (left + right)[0]] + (left + right)[1..] == [h + left[0]] + left[1..] + right
    ensures [""] + (left + right) == [""] + left + right
  {
    assert (left + right)[1..] == left[1..] + right;
  }

  /** Splitting a string one character longer at the front. */
  lemma SplitCons(a: char, t: string, c: char)
    ensures Split([a] + t, c) ==
            if a == c then [""] + Split(t, c) else [[a] + Split(t, c)[0]] + Split(t, c)[1..]
  {
    assert ([a] + t)[0] == a && ([a] + t)[1..] == t;
  }

  /** A string without the separator is a single piece. */
  lemma {:induction false} SplitNoSeparator(s: string, c: char)
    requires c !in s
    ensures Split(s, c) == [s]
  {
    if s != [] {
      SplitNoSeparator(s[1..], c);
      assert [s[0]] + s[1..] == s;
    }
  }

  /** `parts.filter(p => p)`: the non-empty pieces, in order. */
  function NonEmpty(parts: seq<string>): (r: seq<string>)
    ensures forall i :: 0 <= i < |r| ==> r[i] != ""
    ensures |r| <= |parts|
  {
    if parts == [] then []
    else if parts[0] == "" then NonEmpty(parts[1..])
    else [parts[0]] + NonEmpty(parts[1..])
  }

  lemma {:induction false} NonEmptyAppend(a: seq<string>, b: seq<string>)
    ensures NonEmpty(a + b) == NonEmpty(a) + NonEmpty(b)
  {
    if a != [] {
      NonEmptyAppend(a[1..], b);
      assert (a + b)[1..] == a[1..] + b;
      assert (a + b)[0] == a[0];
    } else {
      assert a + b == b;
    }
  }

  /** `s.lastIndexOf(c)`: the index of the last `c`, or -1. */
  function LastIndexOf(s: string, c: char): (k: int)
    ensures -1 <= k < |s|
    ensures k >= 0 ==> s[k] == c
    ensures forall j :: k < j < |s| ==> s[j] != c
  {
    if s == [] then -1
    else if s[|s| - 1] == c then |s| - 1
    else LastIndexOf(s[..|s| - 1], c)
  }

  /** No `/` is immediately followed by another `/`. */
  predicate NoDoubleSlash(s: string)
  {
    forall i :: 0 <= i < |s| - 1 ==> !(s[i] == '/' && s[i + 1] == '/')
  }

  /** `s.replace(/\/+/g, '/')`: every run of slashes becomes a single slash. */
  function CollapseSlashes(s: string): (r: string)
    ensures |r| <= |s|
    ensures |s| > 0 ==> |r| > 0 && r[0] == s[0]
  {
    if |s| <= 1 then s
    else if s[0] == '/' && s[1] == '/' then CollapseSlashes(s[1..])
    else [s[0]] + CollapseSlashes(s[1..])
  }

  /** Collapsing leaves no slash followed by another. */
  lemma {:induction false} CollapseNoDoubleSlash(s: string)
    ensures NoDoubleSlash(CollapseSlashes(s))
  {
    if |s| > 1 {
      CollapseNoDoubleSlash(s[1..]);
      if !(s[0] == '/' && s[1] == '/') {
        var t := CollapseSlashes(s[1..]);
        assert ([s[0]] + t)[1..] == t;
      }
    }
  }

  /** A string with no run of slashes is left as it is. */
  lemma {:induction false} CollapseIdentity(s: string)
    requires NoDoubleSlash(s)
    ensures CollapseSlashes(s) == s
  {
    if |s| > 1 {
      CollapseIdentity(s[1..]);
    }
  }

  /** Collapsing keeps the last character when it is not a slash. */
  lemma {:induction false} CollapseLast(s: string)
    requires |s| > 0 && s[|s| - 1] != '/'
    ensures var r := CollapseSlashes(s); |r| > 0 && r[|r| - 1] == s[|s| - 1]
    decreases |s|
  {
    if |s| > 1 {
      CollapseLast(s[1..]);
    }
  }

  /** Collapsing twice is collapsing once. */
  lemma CollapseIdempotent(s: string)
    ensures CollapseSlashes(CollapseSlashes(s)) == CollapseSlashes(s)
  {
    CollapseNoDoubleSlash(s);
    CollapseIdentity(CollapseSlashes(s));
  }

  /** The non-empty `/`-separated segments of a path (`path.split('/').filter(p => p)`). */
  function Segments(p: string): seq<string>
  {
    NonEmpty(Split(p, '/'))
  }

  /** Collapsing slashes does not change the segments a path walks through. */
  lemma SegmentsCollapse(s: string)
    ensures Segments(CollapseSlashes(s)) == Segments(s)
  {
    HeadTailCollapse(s);
    SegmentsByHead(s);
    SegmentsByHead(CollapseSlashes(s));
  }

  lemma SegmentsByHead(s: string)
    ensures Segments(s) == (if Split(s, '/')[0] == "" then [] else [Split(s, '/')[0]]) + NonEmpty(Split(s, '/')[1..])
  {
    var parts := Split(s, '/');
    assert parts == [parts[0]] + parts[1..];
    NonEmptyAppend([parts[0]], parts[1..]);
  }

  lemma {:induction false} HeadTailCollapse(s: string)
    ensures Split(CollapseSlashes(s), '/')[0] == Split(s, '/')[0]
    ensures NonEmpty(Split(CollapseSlashes(s), '/')[1..]) == NonEmpty(Split(s, '/')[1..])
    decreases |s|
  {
    if |s| <= 1 {
    } else if s[0] == '/' && s[1] == '/' {
      HeadTailCollapse(s[1..]);
      SegmentsByHead(s[1..]);
    } else if s[0] == '/' {
      var t := CollapseSlashes(s[1..]);
      HeadTailCollapse(s[1..]);
      SegmentsByHead(s[1..]);
      SegmentsByHead(t);
      assert CollapseSlashes(s) == [s[0]] + t;
      assert ([s[0]] + t)[1..] == t;
    } else {
      var t := CollapseSlashes(s[1..]);
      HeadTailCollapse(s[1..]);
      assert CollapseSlashes(s) == [s[0]] + t;
      assert ([s[0]] + t)[1..] == t;
    }
  }

  /** The characters `String.prototype.trim` strips: ECMAScript WhiteSpace and LineTerminator. */
  predicate IsSpace(c: char)
  {
    c in {' ', '\t', '\n', '\r', '\U{000B}', '\U{000C}', '\U{00A0}', '\U{FEFF}', '\U{1680}',
          '\U{2000}', '\U{2001}', '\U{2002}', '\U{2003}', '\U{2004}', '\U{2005}', '\U{2006}',
          '\U{2007}', '\U{2008}', '\U{2009}', '\U{200A}', '\U{2028}', '\U{2029}', '\U{202F}',
          '\U{205F}', '\U{3000}'}
  }

  function TrimStart(s: string): (r: string)
    ensures |r| <= |s| && r == s[|s| - |r|..]
    ensures forall i :: 0 <= i < |s| - |r| ==> IsSpace(s[i])
    ensures r == [] || !IsSpace(r[0])
  {
    if s != [] && IsSpace(s[0]) then TrimStart(s[1..]) else s
  }

  function TrimEnd(s: string): (r: string)
    ensures |r| <= |s| && r == s[..|r|]
    ensures forall i :: |r| <= i < |s| ==> IsSpace(s[i])
    ensures r == [] || !IsSpace(r[|r| - 1])
  {
    if s != [] && IsSpace(s[|s| - 1]) then TrimEnd(s[..|s| - 1]) else s
  }

  /** `s.trim()`: `s` without its leading and trailing white space. */
  function Trim(s: string): (r: string)
    ensures |r| <= |s|
    ensures r == [] || (!IsSpace(r[0]) && !IsSpace(r[|r| - 1]))
  {
    var t := TrimStart(s);
    var r := TrimEnd(t);
    assert r != [] ==> r[0] == t[0];
    r
  }

  /** `toLowerCase` on the ASCII letters. */
  function LowerChar(c: char): char
  {
    if 'A' <= c <= 'Z' then (c as int + 32) as char else c
  }

  function ToLower(s: string): (r: string)
    ensures |r| == |s|
    ensures forall i :: 0 <= i < |s| ==> r[i] == LowerChar(s[i])
  {
    seq(|s|, i requires 0 <= i < |s| => LowerChar(s[i]))
  }

  /**
   * `s.length`: JavaScript strings count UTF-16 code units, so a character
   * outside the Basic Multilingual Plane (above U+FFFF) counts twice.
   */
  function Utf16Length(s: string): (n: nat)
    ensures |s| <= n <= 2 * |s|
  {
    if s == [] then 0 else (if s[0] as int > 0xFFFF then 2 else 1) + Utf16Length(s[1..])
  }

  /** Text within the Basic Multilingual Plane has one code unit per character. */
  lemma {:induction false} Utf16LengthBmp(s: string)
    requires forall i :: 0 <= i < |s| ==> s[i] as int <= 0xFFFF
    ensures Utf16Length(s) == |s|
  {
    if s != [] {
      Utf16LengthBmp(s[1..]);
    }
  }

  /** Code units add up over concatenation. */
  lemma {:induction false} Utf16LengthAppend(a: string, b: string)
    ensures Utf16Length(a + b) == Utf16Length(a) + Utf16Length(b)
  {
    if a == [] {
      assert a + b == b;
    } else {
      assert (a + b)[0] == a[0] && (a + b)[1..] == a[1..] + b;
      Utf16LengthAppend(a[1..], b);
    }
  }

  /** One emoji is two code units. */
  lemma EmojiLength()
    ensures Utf16Length("\U{1F600}") == 2 && |"\U{1F600}"| == 1
  {
  }

  /** `s.padStart(n, c)` */
  function PadStart(s: string, n: nat, c: char): (r: string)
    ensures |r| == if |s| >= n then |s| else n
    ensures r[|r| - |s|..] == s
    ensures forall i :: 0 <= i < |r| - |s| ==> r[i] == c
  {
    if |s| >= n then s else seq(n - |s|, _ => c) + s
  }

  function DigitChar(d: nat): (c: char)
    requires d < 10
    ensures '0' <= c <= '9' && c as int - '0' as int == d
  {
    (d + '0' as int) as char
  }

  /** `n.toString()` for a natural number: its decimal digits, no leading zero. */
  function NatToString(n: nat): (r: string)
    ensures |r| >= 1
    ensures forall i :: 0 <= i < |r| ==> '0' <= r[i] <= '9'
  {
    if n < 10 then [DigitChar(n)] else NatToString(n / 10) + [DigitChar(n % 10)]
  }

  /** The value of a string of decimal digits. */
  function DigitsValue(s: string): nat
    requires forall i :: 0 <= i < |s| ==> '0' <= s[i] <= '9'
  {
    if s == [] then 0 else DigitsValue(s[..|s| - 1]) * 10 + (s[|s| - 1] as int - '0' as int)
  }

  /** A digit string without a leading zero, unless it is `0` itself: the form `toString` gives a number. */
  predicate Canonical(s: string)
  {
    s != "" && (forall i :: 0 <= i < |s| ==> '0' <= s[i] <= '9') && (s == "0" || s[0] != '0')
  }

  /** A canonical digit string is the decimal form of its value, so two of them with one value are equal. */
  lemma {:induction false} CanonicalDigits(s: string)
    requires Canonical(s)
    ensures NatToString(DigitsValue(s)) == s
  {
    if |s| > 1 {
      var init, d := CanonicalSplit(s);
      CanonicalDigits(init);
      LeadingDigitPositive(init);
      NatToStringStep(DigitsValue(init), d);
    }
  }

  /** A canonical string of two or more digits: a canonical string without leading zero, then one more digit. */
  lemma CanonicalSplit(s: string) returns (init: string, d: nat)
    requires Canonical(s) && |s| > 1
    ensures Canonical(init) && init[0] != '0' && d < 10
    ensures s == init + [DigitChar(d)] && DigitsValue(s) == DigitsValue(init) * 10 + d
  {
    init := s[..|s| - 1];
    d := s[|s| - 1] as int - '0' as int;
    assert init[0] == s[0];
  }

  /** The decimal form of `10 * q + d`, for a positive `q`, is that of `q` followed by digit `d`. */
  lemma NatToStringStep(q: nat, d: nat)
    requires q > 0 && d < 10
    ensures NatToString(q * 10 + d) == NatToString(q) + [DigitChar(d)]
  {
    var v := q * 10 + d;
    assert v / 10 == q && v % 10 == d && v >= 10;
  }

  /** Digits that start with a non-zero digit have a positive value. */
  lemma {:induction false} LeadingDigitPositive(s: string)
    requires s != [] && (forall i :: 0 <= i < |s| ==> '0' <= s[i] <= '9') && s[0] != '0'
    ensures DigitsValue(s) > 0
  {
    if |s| > 1 {
      LeadingDigitPositive(s[..|s| - 1]);
    }
  }

  /** Reading the digits back gives the number. */
  lemma {:induction false} NatToStringValue(n: nat)
    ensures DigitsValue(NatToString(n)) == n
  {
    if n >= 10 {
      NatToStringValue(n / 10);
      var r := NatToString(n);
      assert r[..|r| - 1] == NatToString(n / 10);
    }
  }
}
