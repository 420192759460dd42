/** The JavaScript string operations the source uses, on `string` = `seq<char>`:
    `trim`, `split` on a character or a character class, `join`, character
    removal (`replace(/[...]/g, '')`), integer-to-decimal conversion and
    `padStart(2, "0")`. */
module Text {

  /** ECMAScript's WhiteSpace and LineTerminator code points: exactly what `String.prototype.trim` strips. */
  const Whitespace: set<char> := {
    '\t', '\n', '\U{000B}', '\U{000C}', '\r', ' ', '\U{00A0}', '\U{1680}',
    '\U{2000}', '\U{2001}', '\U{2002}', '\U{2003}', '\U{2004}', '\U{2005}',
    '\U{2006}', '\U{2007}', '\U{2008}', '\U{2009}', '\U{200A}',
    '\U{2028}', '\U{2029}', '\U{202F}', '\U{205F}', '\U{3000}', '\U{FEFF}'
  }

  /** No character of `s` belongs to `cs`. */
  predicate NoneOf(s: string, cs: set<char>) {
    forall i :: 0 <= i < |s| ==> s[i] !in cs
  }

  /** Every character of `s` is whitespace (this includes the empty string). */
  predicate IsBlank(s: string) {
    forall i :: 0 <= i < |s| ==> s[i] in Whitespace
  }

  /** Leading whitespace removed; the result is a suffix of `s`. */
  function TrimStart(s: string): (r: string)
    ensures |r| <= |s| && r == s[|s| - |r|..]
    ensures forall i :: 0 <= i < |s| - |r| ==> s[i] in Whitespace
    ensures |r| > 0 ==> r[0] !in Whitespace
  {
    if |s| > 0 && s[0] in Whitespace then
      var r := TrimStart(s[1..]);
      assert s[1..][|s| - 1 - |r|..] == s[|s| - |r|..];
      assert forall i :: 1 <= i < |s| - |r| ==> s[i] == s[1..][i - 1];
      r
    else s
  }

  /** Trailing whitespace removed; the result is a prefix of `s`. */
  function TrimEnd(s: string): (r: string)
    ensures |r| <= |s| && r == s[..|r|]
    ensures forall i :: |r| <= i < |s| ==> s[i] in Whitespace
    ensures |r| > 0 ==> r[|r| - 1] !in Whitespace
  {
    if |s| > 0 && s[|s| - 1] in Whitespace then TrimEnd(s[..|s| - 1]) else s
  }

  /** `String.prototype.trim`: the text between the leading and the trailing whitespace. */
  function Trim(s: string): (r: string)
    ensures |r| > 0 ==> (r[0] !in Whitespace && r[|r| - 1] !in Whitespace)
    ensures r == [] <==> IsBlank(s)
    ensures TrimOffset(s) + |r| <= |s| && r == s[TrimOffset(s)..TrimOffset(s) + |r|]
  {
    var t := TrimStart(s);
    var r := TrimEnd(t);
    TrimShape(s, t, r, Whitespace);
    r
  }

  /** Stripping a `ws` prefix and then a `ws` suffix leaves the middle of `s`, which
      is empty exactly when all of `s` is in `ws` and otherwise starts and ends
      outside `ws`. */
  lemma TrimShape(s: string, t: string, r: string, ws: set<char>)
    requires |t| <= |s| && t == s[|s| - |t|..]
    requires forall i :: 0 <= i < |s| - |t| ==> s[i] in ws
    requires |t| > 0 ==> t[0] !in ws
    requires |r| <= |t| && r == t[..|r|]
    requires forall i :: |r| <= i < |t| ==> t[i] in ws
    requires |r| > 0 ==> r[|r| - 1] !in ws
    ensures |r| > 0 ==> (r[0] !in ws && r[|r| - 1] !in ws)
    ensures r == [] <==> forall i :: 0 <= i < |s| ==> s[i] in ws
    ensures |s| - |t| + |r| <= |s| && r == s[|s| - |t|..|s| - |t| + |r|]
  {
    var a := |s| - |t|;
    if r == [] {
      assert t == [];
    } else {
      assert r[0] == t[0];
      assert s[a] == t[0];
    }
  }

  /** Where the trimmed text starts inside `s`: the length of the leading whitespace. */
  function TrimOffset(s: string): (a: nat)
    ensures a <= |s|
  {
    |s| - |TrimStart(s)|
  }

  /** Trimming loses no character outside `cs`, for any `cs` that covers whitespace. */
  lemma TrimKeepsContent(s: string, cs: set<char>)
    requires Whitespace <= cs
    ensures RemoveChars(Trim(s), cs) == RemoveChars(s, cs)
  {
    TrimStartKeepsContent(s, cs);
    TrimEndKeepsContent(TrimStart(s), cs);
  }

  lemma TrimStartKeepsContent(s: string, cs: set<char>)
    requires Whitespace <= cs
    ensures RemoveChars(TrimStart(s), cs) == RemoveChars(s, cs)
  {
    var t := TrimStart(s);
    var lead := s[..|s| - |t|];
    assert s == lead + t;
    RemoveCharsAppend(lead, t, cs);
    BlankRemoved(lead, cs);
  }

  lemma TrimEndKeepsContent(s: string, cs: set<char>)
    requires Whitespace <= cs
    ensures RemoveChars(TrimEnd(s), cs) == RemoveChars(s, cs)
  {
    var r := TrimEnd(s);
    var trail := s[|r|..];
    assert s == r + trail;
    RemoveCharsAppend(r, trail, cs);
    assert IsBlank(trail) by {
      forall i | 0 <= i < |trail|
        ensures trail[i] in Whitespace
      {
        assert trail[i] == s[|r| + i];
      }
    }
    BlankRemoved(trail, cs);
  }

  /** A blank text disappears when a superset of whitespace is removed. */
  lemma BlankRemoved(s: string, cs: set<char>)
    requires Whitespace <= cs
    requires IsBlank(s)
    ensures RemoveChars(s, cs) == []
  {
    RemoveCharsEmpty(s, cs);
  }

  /** Trimming introduces no characters: a text free of `cs` stays free of `cs`. */
  lemma TrimNoneOf(s: string, cs: set<char>)
    requires NoneOf(s, cs)
    ensures NoneOf(Trim(s), cs)
  {
    var a := TrimOffset(s);
    SliceNoneOf(s, a, a + |Trim(s)|, cs);
  }

  /** A slice of a text free of `cs` is free of `cs`. */
  lemma SliceNoneOf(s: string, a: nat, b: nat, cs: set<char>)
    requires a <= b <= |s|
    requires NoneOf(s, cs)
    ensures NoneOf(s[a..b], cs)
  {
    forall i | 0 <= i < b - a
      ensures s[a..b][i] !in cs
    {
      assert s[a..b][i] == s[a + i];
    }
  }

  /** `s` with every character of `cs` deleted, the rest kept in order (`replace(/[cs]/g, '')`). */
  function RemoveChars(s: string, cs: set<char>): (r: string)
    ensures NoneOf(r, cs)
    ensures |r| <= |s|
  {
    if |s| == 0 then [] else (if s[0] in cs then [] else [s[0]]) + RemoveChars(s[1..], cs)
  }

  lemma {:induction false} RemoveCharsAppend(a: string, b: string, cs: set<char>)
    ensures RemoveChars(a + b, cs) == RemoveChars(a, cs) + RemoveChars(b, cs)
  {
    if |a| > 0 {
      assert (a + b)[1..] == a[1..] + b;
      RemoveCharsAppend(a[1..], b, cs);
    } else {
      assert a + b == b;
    }
  }

  /** Removing a set of characters deletes a text exactly when it consists only of them. */
  lemma {:induction false} RemoveCharsEmpty(s: string, cs: set<char>)
    ensures RemoveChars(s, cs) == [] <==> forall i :: 0 <= i < |s| ==> s[i] in cs
  {
    if |s| > 0 {
      RemoveCharsEmpty(s[1..], cs);
      assert forall i :: 1 <= i < |s| ==> s[i] == s[1..][i - 1];
    }
  }

  /** `RemoveChars` leaves a text that already avoids `cs` unchanged. */
  lemma {:induction false} RemoveCharsNone(s: string, cs: set<char>)
    requires NoneOf(s, cs)
    ensures RemoveChars(s, cs) == s
  {
    if |s| > 0 {
      RemoveCharsNone(s[1..], cs);
    }
  }

  /** `String.prototype.split` with every character of `seps` as a separator
      (`split('\n')`, `split(' ')`, `split(/[.!?]/)`): always at least one piece,
      one more piece than there are separators. */
  function Split(s: string, seps: set<char>): (r: seq<string>)
    ensures |r| >= 1
    ensures forall k :: 0 <= k < |r| ==> NoneOf(r[k], seps)
  {
    if |s| == 0 then [[]]
    else
      var rest := Split(s[1..], seps);
      if s[0] in seps then [[]] + rest
      else [[s[0]] + rest[0]] + rest[1..]
  }

  /** Text on either side of a separator splits independently: pieces stay in order. */
  lemma {:induction false} SplitAppend(a: string, c: char, b: string, seps: set<char>)
    requires c in seps
    ensures Split(a + [c] + b, seps) == Split(a, seps) + Split(b, seps)
  {
    if |a| == 0 {
      assert a + [c] + b == [c] + b;
      assert ([c] + b)[1..] == b;
    } else {
      assert (a + [c] + b)[1..] == a[1..] + [c] + b;
      SplitAppend(a[1..], c, b, seps);
    }
  }

  /** A text without separators is one piece. */
  lemma {:induction false} SplitNoSep(s: string, seps: set<char>)
    requires NoneOf(s, seps)
    ensures Split(s, seps) == [s]
  {
    if |s| > 0 {
      SplitNoSep(s[1..], seps);
      assert s == [s[0]] + s[1..];
    }
  }

  /** `Array.prototype.join(sep)`. */
  function Join(parts: seq<string>, sep: string): string
  {
    if |parts| == 0 then []
    else if |parts| == 1 then parts[0]
    else parts[0] + sep + Join(parts[1..], sep)
  }

  /** All parts concatenated, each with the characters of `cs` removed. */
  function ConcatRemoving(parts: seq<string>, cs: set<char>): string
  {
    if |parts| == 0 then [] else RemoveChars(parts[0], cs) + ConcatRemoving(parts[1..], cs)
  }

  /** Splitting on one character and joining with that character gives back the text. */
  lemma {:induction false} JoinSplit(s: string, c: char)
    ensures Join(Split(s, {c}), [c]) == s
  {
    if |s| > 0 {
      var rest := Split(s[1..], {c});
      JoinSplit(s[1..], c);
      if s[0] == c {
        assert Split(s, {c}) == [[]] + rest;
        assert Join([[]] + rest, [c]) == [] + [c] + Join(rest, [c]) by {
          assert ([[]] + rest)[1..] == rest;
        }
        assert s == [c] + s[1..];
      } else {
        var parts := [[s[0]] + rest[0]] + rest[1..];
        assert Split(s, {c}) == parts;
        if |rest| == 1 {
          assert Join(parts, [c]) == [s[0]] + rest[0];
          assert s == [s[0]] + s[1..];
        } else {
          assert parts[1..] == rest[1..];
          assert Join(rest, [c]) == rest[0] + [c] + Join(rest[1..], [c]);
          assert Join(parts, [c]) == [s[0]] + rest[0] + [c] + Join(rest[1..], [c]);
          assert s == [s[0]] + s[1..];
        }
      }
    }
  }

  /** Joining the first `k` pieces of a split gives a prefix of the original text. */
  /** Splitting parts rejoined on a separator they do not contain gives the parts back. */
  lemma {:induction false} SplitJoin(parts: seq<string>, c: char)
    requires |parts| >= 1
    requires forall k :: 0 <= k < |parts| ==> NoneOf(parts[k], {c})
    ensures Split(Join(parts, [c]), {c}) == parts
  {
    SplitNoSep(parts[0], {c});
    if |parts| > 1 {
      SplitJoin(parts[1..], c);
      SplitAppend(parts[0], c, Join(parts[1..], [c]), {c});
      assert parts == [parts[0]] + parts[1..];
    }
  }

  lemma {:induction false} JoinSplitPrefix(s: string, c: char, k: nat)
    ensures var parts := Split(s, {c});
            k <= |parts| ==> Join(parts[..k], [c]) <= s
  {
    var parts := Split(s, {c});
    if k <= |parts| {
      JoinTakePrefix(parts, [c], k);
      JoinSplit(s, c);
    }
  }

  /** The join of a prefix of the parts is a prefix of the join of all parts. */
  lemma {:induction false} JoinTakePrefix(parts: seq<string>, sep: string, k: nat)
    requires k <= |parts|
    ensures Join(parts[..k], sep) <= Join(parts, sep)
  {
    if k > 0 && |parts| > 1 {
      if k == 1 {
        assert parts[..1] == [parts[0]];
      } else {
        JoinTakePrefix(parts[1..], sep, k - 1);
        assert parts[..k][1..] == parts[1..][..k - 1];
        var tail := Join(parts[1..][..k - 1], sep);
        var full := Join(parts[1..], sep);
        assert tail <= full;
        assert Join(parts[..k], sep) == parts[0] + sep + tail;
        assert Join(parts, sep) == parts[0] + sep + full;
        assert full == tail + full[|tail|..];
        assert parts[0] + sep + full == (parts[0] + sep + tail) + full[|tail|..];
      }
    } else if k > 0 {
      assert parts[..k] == parts;
    }
  }

  /** A join with a separator drawn from `cs` loses, after removing `cs`, only the separators. */
  lemma {:induction false} JoinRemoveChars(parts: seq<string>, sep: string, cs: set<char>)
    requires forall i :: 0 <= i < |sep| ==> sep[i] in cs
    ensures RemoveChars(Join(parts, sep), cs) == ConcatRemoving(parts, cs)
  {
    if |parts| == 1 {
      assert ConcatRemoving(parts[1..], cs) == [];
    } else if |parts| > 1 {
      JoinRemoveChars(parts[1..], sep, cs);
      RemoveCharsAppend(parts[0] + sep, Join(parts[1..], sep), cs);
      RemoveCharsAppend(parts[0], sep, cs);
      RemoveCharsEmpty(sep, cs);
    }
  }

  /** A join of texts that avoid `cs`, with a separator that avoids `cs`, avoids `cs`. */
  lemma {:induction false} JoinNoneOf(parts: seq<string>, sep: string, cs: set<char>)
    requires forall k :: 0 <= k < |parts| ==> NoneOf(parts[k], cs)
    requires NoneOf(sep, cs)
    ensures NoneOf(Join(parts, sep), cs)
  {
    if |parts| > 1 {
      JoinNoneOf(parts[1..], sep, cs);
    }
  }

  /** Removing the separators of a split, and anything else in `cs`, from every piece
      removes them from the whole text. */
  lemma {:induction false} SplitRemoveChars(s: string, seps: set<char>, cs: set<char>)
    ensures ConcatRemoving(Split(s, seps), cs) == RemoveChars(s, cs + seps)
  {
    if |s| > 0 {
      var rest := Split(s[1..], seps);
      SplitRemoveChars(s[1..], seps, cs);
      if s[0] in seps {
        assert ([[]] + rest)[1..] == rest;
      } else {
        var head := [s[0]] + rest[0];
        var parts := [head] + rest[1..];
        assert parts[1..] == rest[1..];
        RemoveCharsAppend([s[0]], rest[0], cs);
        assert ConcatRemoving(rest, cs) == RemoveChars(rest[0], cs) + ConcatRemoving(rest[1..], cs);
        assert RemoveChars([s[0]], cs) == (if s[0] in cs then [] else [s[0]]) by {
          assert [s[0]][1..] == [];
        }
      }
    }
  }

  /** Dropping pieces that are blank does not change the non-whitespace content. */
  lemma {:induction false} DropBlankPieces(parts: seq<string>, cs: set<char>)
    requires Whitespace <= cs
    ensures ConcatRemoving(NonBlank(parts), cs) == ConcatRemoving(parts, cs)
  {
    if |parts| > 0 {
      DropBlankPieces(parts[1..], cs);
      if IsBlank(parts[0]) {
        RemoveCharsEmpty(parts[0], cs);
      }
    }
  }

  /** The pieces that are not blank, in order (JavaScript's `filter(x => x.trim())`). */
  function NonBlank(parts: seq<string>): (r: seq<string>)
    ensures |r| <= |parts|
    ensures forall k :: 0 <= k < |r| ==> !IsBlank(r[k]) && r[k] in parts
    ensures forall k :: 0 <= k < |parts| && !IsBlank(parts[k]) ==> parts[k] in r
  {
    if |parts| == 0 then []
    else if IsBlank(parts[0]) then NonBlank(parts[1..])
    else [parts[0]] + NonBlank(parts[1..])
  }

  // ---- Numbers as text ----

  /** The decimal digit for `d`. */
  function DigitChar(d: nat): (c: char)
    requires d < 10
    ensures IsDigit(c) && DigitValue(c) == d
  {
    ('0' as int + d) as char
  }

  predicate IsDigit(c: char) {
    '0' <= c <= '9'
  }

  /** Decimal rendering of a non-negative integer without leading zeros (`Number.prototype.toString`). */
  function NatToString(n: nat): (r: string)
    ensures |r| >= 1
    ensures forall i :: 0 <= i < |r| ==> IsDigit(r[i])
    ensures n < 10 <==> |r| == 1
  {
    if n < 10 then [DigitChar(n)] else NatToString(n / 10) + [DigitChar(n % 10)]
  }

  /** The value of a string of decimal digits. */
  function ParseDigits(s: string): nat
    requires forall i :: 0 <= i < |s| ==> IsDigit(s[i])
  {
    if |s| == 0 then 0 else 10 * ParseDigits(s[..|s| - 1]) + DigitValue(s[|s| - 1])
  }

  function DigitValue(c: char): (d: nat)
    requires IsDigit(c)
    ensures d < 10
  {
    c as int - '0' as int
  }

  /** Decimal rendering round-trips. */
  lemma {:induction false} ParseNatToString(n: nat)
    ensures ParseDigits(NatToString(n)) == n
  {
    if n >= 10 {
      ParseNatToString(n / 10);
      var s := NatToString(n);
      assert s[..|s| - 1] == NatToString(n / 10);
    }
  }

  /** JavaScript's `a || b` on strings: `a` unless it is empty. */
  function OrElse(a: string, b: string): (r: string)
    ensures a != [] ==> r == a
    ensures a == [] ==> r == b
    ensures b != [] ==> r != []
  {
    if a != [] then a else b
  }

  /** Decimal rendering of any integer, with a leading `-` for negatives. */
  function IntToString(i: int): (r: string)
    ensures i >= 0 ==> r == NatToString(i)
    ensures i < 0 ==> r == "-" + NatToString(-i)
  {
    if i < 0 then "-" + NatToString(-i) else NatToString(i)
  }

  /** `padStart(2, "0")`: a one-character text gets a leading zero, longer texts are unchanged. */
  function PadStart2(s: string): (r: string)
    ensures |r| == if |s| < 2 then 2 else |s|
    ensures r[|r| - |s|..] == s
    ensures forall i :: 0 <= i < |r| - |s| ==> r[i] == '0'
  {
    if |s| == 0 then "00" else if |s| == 1 then "0" + s else s
  }

  /** ASCII upper-casing of one character; other characters are unchanged. */
  function ToUpperAscii(c: char): (r: char)
    ensures 'a' <= c <= 'z' ==> 'A' <= r <= 'Z' && r as int - 'A' as int == c as int - 'a' as int
    ensures !('a' <= c <= 'z') ==> r == c
  {
    if 'a' <= c <= 'z' then (c as int - 32) as char else c
  }
}
