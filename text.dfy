/** The subset of Python's `str` methods the controller relies on, for ASCII text:
    `split(sep)`, `split()`, `strip()`, `count`, `find`, `startswith`, `endswith`,
    `isnumeric()` and `join`. */
module Text {

  datatype Option<T> = None | Some(value: T)

  /** Characters for which Python's `str.isspace()` holds, restricted to ASCII. */
  predicate IsSpace(c: char) {
    c == ' ' || c == '\t' || c == '\n' || c == '\r' || c == '\U{000B}' || c == '\U{000C}'
    || ('\U{001C}' <= c <= '\U{001F}')
  }

  predicate IsDigit(c: char) { '0' <= c <= '9' }

  /** `s.isnumeric()` on ASCII text: non-empty and only decimal digits. */
  predicate IsNumeric(s: string) {
    |s| > 0 && forall i :: 0 <= i < |s| ==> IsDigit(s[i])
  }

  predicate AllDigits(s: string) {
    forall i :: 0 <= i < |s| ==> IsDigit(s[i])
  }

  /** The value of a string of decimal digits, as `int(s)` computes it. */
  function DigitsValue(s: string): (n: nat)
    requires AllDigits(s)
    ensures |s| == 1 ==> n == (s[0] as int) - ('0' as int)
  {
    if |s| == 0 then 0 else DigitsValue(s[..|s| - 1]) * 10 + ((s[|s| - 1] as int) - ('0' as int))
  }

  /** `s.count(c)` for a one-character pattern. */
  function Count(s: string, c: char): (n: nat)
    ensures n <= |s|
    ensures n == 0 <==> c !in s
  {
    if |s| == 0 then 0 else (if s[0] == c then 1 else 0) + Count(s[1..], c)
  }

  /** `s.find(t) != -1`. */
  predicate HasSubstring(s: string, t: string)
    decreases |s|
  {
    if |s| < |t| then false else t <= s || HasSubstring(s[1..], t)
  }

  predicate StartsWith(s: string, prefix: string) { prefix <= s }

  predicate EndsWith(s: string, suffix: string) {
    |suffix| <= |s| && s[|s| - |suffix|..] == suffix
  }

  /** `s.split(sep)` for a one-character separator: never empty, and the pieces hold no `sep`. */
  function Split(s: string, sep: char): (r: seq<string>)
    ensures |r| >= 1
  {
    if |s| == 0 then [""]
    else
      var rest := Split(s[1..], sep);
      if s[0] == sep then [""] + rest else [[s[0]] + rest[0]] + rest[1..]
  }

  /** A prefix grows by the next element. */
  lemma TakeNext<T>(s: seq<T>, j: nat)
    requires j < |s|
    ensures s[..j + 1] == s[..j] + [s[j]]
    ensures s[..j + 1][..j] == s[..j] && s[..j + 1][j] == s[j]
  {
  }

  /** Appending keeps every earlier element. */
  lemma AppendKeeps<T>(s: seq<T>, x: T)
    ensures forall t :: 0 <= t < |s| ==> (s + [x])[t] == s[t]
    ensures (s + [x])[|s|] == x
  {
  }

  lemma AppendAssoc<T>(a: seq<T>, b: seq<T>, c: seq<T>)
    ensures a + (b + c) == (a + b) + c
  {
  }

  /** Dropping the last element keeps every other. */
  lemma DropLast<T>(s: seq<T>)
    requires |s| > 0
    ensures forall i :: 0 <= i < |s| - 1 ==> s[..|s| - 1][i] == s[i]
  {
  }

  /** Joining three words with spaces does not depend on grouping. */
  lemma SpacedAssoc(a: string, b: string, c: string)
    ensures a + " " + b + " " + c == a + " " + (b + " " + c)
  {
  }

  lemma TakeAll<T>(s: seq<T>)
    ensures s[..|s|] == s
  {
  }

  /** The pieces of `s.split(sep)` hold no `sep`, and there is one more piece than separators. */
  lemma {:induction false} SplitPieces(s: string, sep: char)
    ensures |Split(s, sep)| == Count(s, sep) + 1
    ensures forall i :: 0 <= i < |Split(s, sep)| ==> sep !in Split(s, sep)[i]
  {
    if |s| > 0 { SplitPieces(s[1..], sep); }
  }

  /** `sep.join(parts)`. */
  function Join(parts: seq<string>, sep: char): string
  {
    if |parts| == 0 then "" else if |parts| == 1 then parts[0] else parts[0] + [sep] + Join(parts[1..], sep)
  }

  /** The text before the first `sep` and the text after it, as `s.split(sep, 1)` gives them. */
  function SplitOnce(s: string, sep: char): (r: (string, string))
    requires sep in s
    ensures r.0 + [sep] + r.1 == s && sep !in r.0
  {
    if s[0] == sep then ("", s[1..])
    else var t := SplitOnce(s[1..], sep); ([s[0]] + t.0, t.1)
  }

  /** A text is the part before index `p`, the character there, and the part after it. */
  lemma CutAt(s: string, p: nat)
    requires p < |s|
    ensures s == s[..p] + [s[p]] + s[p + 1..]
  {
  }

  /** `s.find(c)` for a character that occurs in `s`: the index of its first occurrence. */
  function IndexOf(s: string, c: char): (p: nat)
    requires c in s
    ensures p < |s| && s[p] == c && c !in s[..p]
  {
    if s[0] == c then 0
    else
      var q := IndexOf(s[1..], c);
      assert s[..q + 1] == [s[0]] + s[1..][..q];
      q + 1
  }

  /** With exactly one separator, `s.split(sep)` is the text before it and the text after it. */
  lemma SplitAtIndex(s: string, sep: char)
    requires Count(s, sep) == 1
    ensures sep in s
    ensures Split(s, sep) == [s[..IndexOf(s, sep)], s[IndexOf(s, sep) + 1..]]
  {
    var p := IndexOf(s, sep);
    assert s == s[..p] + [sep] + s[p + 1..];
    CountAppend(s[..p] + [sep], s[p + 1..], sep);
    CountAppend(s[..p], [sep], sep);
    SplitTwo(s[..p], s[p + 1..], sep);
  }

  /** `s.strip()`. */
  function Strip(s: string): (r: string)
    ensures |r| <= |s|
    ensures |r| > 0 ==> !IsSpace(r[0]) && !IsSpace(r[|r| - 1])
  {
    TrimRight(TrimLeft(s))
  }

  function TrimLeft(s: string): (r: string)
    ensures |r| <= |s| && (|r| > 0 ==> !IsSpace(r[0]))
    ensures r == s[|s| - |r|..]
  {
    if |s| > 0 && IsSpace(s[0]) then TrimLeft(s[1..]) else s
  }

  function TrimRight(s: string): (r: string)
    ensures |r| <= |s| && (|r| > 0 ==> !IsSpace(r[|r| - 1]))
    ensures r == s[..|r|]
  {
    if |s| > 0 && IsSpace(s[|s| - 1]) then TrimRight(s[..|s| - 1]) else s
  }

  /** `"".join(s.split())`: every whitespace character removed, the rest in order. */
  function RemoveSpaces(s: string): (r: string)
    ensures |r| <= |s|
    ensures forall i :: 0 <= i < |r| ==> !IsSpace(r[i])
  {
    if |s| == 0 then "" else (if IsSpace(s[0]) then "" else [s[0]]) + RemoveSpaces(s[1..])
  }

  /** `s.replace(c, "")`. */
  function RemoveChar(s: string, c: char): (r: string)
    ensures c !in r
  {
    if |s| == 0 then "" else (if s[0] == c then "" else [s[0]]) + RemoveChar(s[1..], c)
  }

  /** Python's `<` on strings (code-point lexicographic order). */
  predicate Less(a: string, b: string)
  {
    if |a| == 0 then |b| > 0
    else if |b| == 0 then false
    else a[0] < b[0] || (a[0] == b[0] && Less(a[1..], b[1..]))
  }

  predicate LessEq(a: string, b: string) { a == b || Less(a, b) }

  lemma {:induction false} LessIrreflexive(a: string)
    ensures !Less(a, a)
  {
    if |a| > 0 { LessIrreflexive(a[1..]); }
  }

  lemma {:induction false} LessTrichotomy(a: string, b: string)
    ensures Less(a, b) || a == b || Less(b, a)
  {
    if |a| > 0 && |b| > 0 && a[0] == b[0] {
      LessTrichotomy(a[1..], b[1..]);
      if a[1..] == b[1..] { assert a == [a[0]] + a[1..]; assert b == [b[0]] + b[1..]; }
    }
  }

  lemma {:induction false} LessTransitive(a: string, b: string, c: string)
    requires Less(a, b) && Less(b, c)
    ensures Less(a, c)
  {
    if |a| > 0 && a[0] == b[0] && b[0] == c[0] {
      LessTransitive(a[1..], b[1..], c[1..]);
    }
  }

  lemma {:induction false} LessAsymmetric(a: string, b: string)
    requires Less(a, b)
    ensures !Less(b, a)
  {
    if |a| > 0 && a[0] == b[0] { LessAsymmetric(a[1..], b[1..]); }
  }

  /** Splitting a joined text gives back its pieces when no piece holds the separator. */
  lemma {:induction false} SplitJoin(parts: seq<string>, sep: char)
    requires |parts| >= 1
    requires forall i :: 0 <= i < |parts| ==> sep !in parts[i]
    ensures Split(Join(parts, sep), sep) == parts
  {
    if |parts| == 1 {
      SplitNoSep(parts[0], sep);
    } else {
      SplitJoin(parts[1..], sep);
      SplitAppend(parts[0], Join(parts[1..], sep), sep);
      SplitNoSep(parts[0], sep);
    }
  }

  lemma {:induction false} SplitNoSep(s: string, sep: char)
    requires sep !in s
    ensures Split(s, sep) == [s]
  {
    if |s| > 0 {
      SplitNoSep(s[1..], sep);
      assert s == [s[0]] + s[1..];
    }
  }

  /** Splitting `a + sep + b` splits `a` and `b` apart. */
  lemma SplitSepFirst(x: string, sep: char)
    ensures Split([sep] + x, sep) == [""] + Split(x, sep)
  {
    assert ([sep] + x)[1..] == x;
  }

  lemma SplitCharFirst(c: char, x: string, sep: char)
    requires c != sep
    ensures Split([c] + x, sep) == [[c] + Split(x, sep)[0]] + Split(x, sep)[1..]
  {
    assert ([c] + x)[1..] == x;
  }

  /** Prefixing the separator to two texts whose splits share a tail. */
  lemma SplitSepStep(t: string, x: string, rb: seq<string>, sep: char)
    requires Split(t, sep) == Split(x, sep) + rb
    ensures Split([sep] + t, sep) == Split([sep] + x, sep) + rb
  {
    SplitSepFirst(t, sep);
    SplitSepFirst(x, sep);
    var rx := Split(x, sep);
    assert [""] + (rx + rb) == ([""] + rx) + rb;
  }

  /** Prefixing another character to two texts whose splits share a tail. */
  lemma SplitCharStep(c: char, t: string, x: string, rb: seq<string>, sep: char)
    requires c != sep
    requires Split(t, sep) == Split(x, sep) + rb
    ensures Split([c] + t, sep) == Split([c] + x, sep) + rb
  {
    SplitCharFirst(c, t, sep);
    SplitCharFirst(c, x, sep);
    ExtendFirstPiece(c, Split(x, sep), rb);
  }

  /** Prefixing a character to the first piece commutes with appending later pieces. */
  lemma ExtendFirstPiece(c: char, rx: seq<string>, rb: seq<string>)
    requires |rx| >= 1
    ensures [[c] + (rx + rb)[0]] + (rx + rb)[1..] == ([[c] + rx[0]] + rx[1..]) + rb
  {
    assert (rx + rb)[0] == rx[0] && (rx + rb)[1..] == rx[1..] + rb;
  }

  lemma {:induction false} SplitAppend(a: string, b: string, sep: char)
    ensures Split(a + [sep] + b, sep) == Split(a, sep) + Split(b, sep)
  {
    if |a| == 0 {
      assert a + [sep] + b == [sep] + b;
      SplitSepFirst(b, sep);
    } else {
      var x, t := a[1..], a[1..] + [sep] + b;
      SplitAppend(x, b, sep);
      assert a == [a[0]] + x && a + [sep] + b == [a[0]] + t;
      if a[0] == sep {
        SplitSepStep(t, x, Split(b, sep), sep);
      } else {
        SplitCharStep(a[0], t, x, Split(b, sep), sep);
      }
    }
  }

  /** A text with one separator splits into the text before it and the text after it. */
  lemma SplitTwo(a: string, b: string, sep: char)
    requires sep !in a && sep !in b
    ensures Split(a + [sep] + b, sep) == [a, b]
  {
    SplitAppend(a, b, sep);
    SplitNoSep(a, sep);
    SplitNoSep(b, sep);
  }

  /** With exactly one separator, `s.split(sep)` gives the same two pieces as `s.split(sep, 1)`. */
  lemma SplitOnceIsSplit(s: string, sep: char)
    requires Count(s, sep) == 1
    ensures sep in s
    ensures Split(s, sep) == [SplitOnce(s, sep).0, SplitOnce(s, sep).1]
  {
    var r := SplitOnce(s, sep);
    CountAppend(r.0 + [sep], r.1, sep);
    CountAppend(r.0, [sep], sep);
    SplitTwo(r.0, r.1, sep);
  }

  /** Removing whitespace keeps every other character. */
  lemma {:induction false} RemoveSpacesKeeps(s: string, c: char)
    requires c in s && !IsSpace(c)
    ensures c in RemoveSpaces(s)
  {
    if s[0] != c {
      RemoveSpacesKeeps(s[1..], c);
    }
  }

  /** A text without whitespace is left as it is. */
  lemma {:induction false} RemoveSpacesNone(s: string)
    requires forall i :: 0 <= i < |s| ==> !IsSpace(s[i])
    ensures RemoveSpaces(s) == s
  {
    if |s| > 0 {
      RemoveSpacesNone(s[1..]);
      assert [s[0]] + s[1..] == s;
    }
  }

  /** The first `c` of `a + [c] + b`, when `a` has none, is at index `|a|`. */
  lemma {:induction false} IndexOfAfter(a: string, b: string, c: char)
    requires c !in a
    ensures c in a + [c] + b && IndexOf(a + [c] + b, c) == |a|
  {
    var s := a + [c] + b;
    assert s[|a|] == c;
    if |a| > 0 {
      IndexOfAfter(a[1..], b, c);
      assert s[1..] == a[1..] + [c] + b;
    }
  }

  /** Removing whitespace keeps a last character that is not whitespace at the end. */
  lemma {:induction false} RemoveSpacesLast(s: string)
    requires |s| > 0 && !IsSpace(s[|s| - 1])
    ensures |RemoveSpaces(s)| > 0 && RemoveSpaces(s)[|RemoveSpaces(s)| - 1] == s[|s| - 1]
  {
    if |s| > 1 {
      RemoveSpacesLast(s[1..]);
    }
  }

  /** `Count` distributes over concatenation. */
  lemma {:induction false} CountAppend(a: string, b: string, c: char)
    ensures Count(a + b, c) == Count(a, c) + Count(b, c)
  {
    if |a| > 0 {
      CountAppend(a[1..], b, c);
      assert (a + b)[1..] == a[1..] + b;
    } else {
      assert a + b == b;
    }
  }

  /** Digits hold none of the separators the controller's files use, and no whitespace. */
  lemma DigitsUnmarked(d: string)
    requires AllDigits(d)
    ensures ':' !in d && ',' !in d && '_' !in d && '-' !in d
    ensures forall i :: 0 <= i < |d| ==> !IsSpace(d[i])
  {
    forall i | 0 <= i < |d| ensures d[i] != ':' && d[i] != ',' && d[i] != '_' && d[i] != '-' && !IsSpace(d[i]) {
      assert IsDigit(d[i]);
    }
  }

  /** `s.split(sep, 1)` on `x + sep + y` with no `sep` in `x`. */
  lemma {:induction false} SplitOnceAt(x: string, y: string, sep: char)
    requires sep !in x
    ensures sep in x + [sep] + y && SplitOnce(x + [sep] + y, sep) == (x, y)
  {
    if |x| > 0 {
      SplitOnceAt(x[1..], y, sep);
      assert (x + [sep] + y)[1..] == x[1..] + [sep] + y;
      assert x == [x[0]] + x[1..];
    }
  }
}
