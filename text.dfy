/**
 * The JavaScript string operations the engine is built from: `indexOf`, `split` and
 * `join` on a one-character separator, `trim`, `includes`, and the conversion `Number(s)`
 * as far as the engine's inputs need it.
 */
module Text {
  import opened Wrappers

  /** Position of the first `c` in `s`, or `|s|` when `s` has none. */
  function IndexOf(s: string, c: char): (i: nat)
    ensures i <= |s|
    ensures i < |s| ==> s[i] == c
  {
    if |s| == 0 then 0
    else if s[0] == c then 0
    else 1 + IndexOf(s[1..], c)
  }

  /** No `c` comes before the position `IndexOf` reports. */
  lemma {:induction false} IndexOfFirst(s: string, c: char)
    ensures c !in s[..IndexOf(s, c)]
    decreases |s|
  {
    if |s| > 0 && s[0] != c {
      IndexOfFirst(s[1..], c);
      assert s[..IndexOf(s, c)] == [s[0]] + s[1..][..IndexOf(s[1..], c)];
    }
  }

  /** `parts.join(sep)`. */
  function Join(parts: seq<string>, sep: char): string
  {
    if |parts| == 0 then ""
    else if |parts| == 1 then parts[0]
    else parts[0] + [sep] + Join(parts[1..], sep)
  }

  /** `s.split(sep)`: never an empty list. */
  function Split(s: string, sep: char): (parts: seq<string>)
    ensures |parts| >= 1
    decreases |s|
  {
    var i := IndexOf(s, sep);
    if i == |s| then [s]
    else [s[..i]] + Split(s[i + 1..], sep)
  }

  /** No piece of a split holds the separator, and joining the pieces gives the text back. */
  lemma {:induction false} SplitParts(s: string, sep: char)
    ensures forall k :: 0 <= k < |Split(s, sep)| ==> sep !in Split(s, sep)[k]
    ensures Join(Split(s, sep), sep) == s
    decreases |s|
  {
    var i := IndexOf(s, sep);
    IndexOfFirst(s, sep);
    if i == |s| {
      assert s[..i] == s;
    } else {
      var rest := Split(s[i + 1..], sep);
      SplitParts(s[i + 1..], sep);
      var parts := [s[..i]] + rest;
      assert Split(s, sep) == parts;
      assert parts[1..] == rest;
      assert forall k :: 1 <= k < |parts| ==> parts[k] == rest[k - 1];
      assert s == s[..i] + [sep] + s[i + 1..];
    }
  }

  lemma {:induction false} IndexOfAfter(a: string, c: char, b: string)
    requires c !in a
    ensures IndexOf(a + [c] + b, c) == |a|
    decreases |a|
  {
    var s := a + [c] + b;
    if |a| > 0 {
      assert s[1..] == a[1..] + [c] + b;
      IndexOfAfter(a[1..], c, b);
    }
  }

  lemma {:induction false} IndexOfAbsent(s: string, c: char)
    requires c !in s
    ensures IndexOf(s, c) == |s|
    decreases |s|
  {
    if |s| > 0 {
      assert s[1..] == s[..][1..];
      assert c !in s[1..] by {
        forall k | 0 <= k < |s[1..]| ensures s[1..][k] != c { assert s[1..][k] == s[k + 1]; }
      }
      IndexOfAbsent(s[1..], c);
    }
  }

  /** Splitting a joined list on the joining separator restores the list, when no piece contains the separator. */
  lemma {:induction false} SplitJoin(parts: seq<string>, sep: char)
    requires |parts| >= 1
    requires forall k :: 0 <= k < |parts| ==> sep !in parts[k]
    ensures Split(Join(parts, sep), sep) == parts
    decreases |parts|
  {
    if |parts| == 1 {
      IndexOfAbsent(parts[0], sep);
    } else {
      var rest := Join(parts[1..], sep);
      var s := parts[0] + [sep] + rest;
      assert Join(parts, sep) == s;
      IndexOfAfter(parts[0], sep, rest);
      assert s[..|parts[0]|] == parts[0];
      assert s[|parts[0]| + 1..] == rest;
      SplitJoin(parts[1..], sep);
      assert parts == [parts[0]] + parts[1..];
    }
  }

  /** A text without the separator, or two such texts around one separator, split as expected. */
  lemma SplitPair(a: string, sep: char, b: string)
    requires sep !in a && sep !in b
    ensures Split(a, sep) == [a]
    ensures Split(a + [sep] + b, sep) == [a, b]
  {
    SplitJoin([a], sep);
    assert Join([a, b], sep) == a + [sep] + b;
    SplitJoin([a, b], sep);
  }

  /** `parts[k]`, or `None` for an index past the end (JavaScript yields `undefined`). */
  function Nth(parts: seq<string>, k: nat): (r: Option<string>)
    ensures r.Some? <==> k < |parts|
    ensures r.Some? ==> r.value == parts[k]
  {
    if k < |parts| then Some(parts[k]) else None
  }

  /** `sub` occurs in `s` (`s.includes(sub)`). */
  predicate Contains(s: string, sub: string)
    decreases |s|
  {
    sub <= s || (|s| > 0 && Contains(s[1..], sub))
  }

  /** A string contains every part of a concatenation that holds it. */
  lemma {:induction false} ContainsMiddle(a: string, b: string, c: string)
    ensures Contains(a + b + c, b)
    decreases |a|
  {
    if |a| > 0 {
      assert (a + b + c)[1..] == a[1..] + b + c;
      ContainsMiddle(a[1..], b, c);
    } else {
      assert a + b + c == b + c;
    }
  }

  /** Extending a string on the right keeps what it contains. */
  lemma {:induction false} ContainsExtend(s: string, c: string, sub: string)
    requires Contains(s, sub)
    ensures Contains(s + c, sub)
    decreases |s|
  {
    if !(sub <= s) {
      assert (s + c)[1..] == s[1..] + c;
      ContainsExtend(s[1..], c, sub);
    }
  }

  /** Extending a string on the left keeps what it contains. */
  lemma {:induction false} ContainsAfter(a: string, s: string, sub: string)
    requires Contains(s, sub)
    ensures Contains(a + s, sub)
    decreases |a|
  {
    if |a| > 0 {
      assert (a + s)[1..] == a[1..] + s;
      ContainsAfter(a[1..], s, sub);
    } else {
      assert a + s == s;
    }
  }

  /** A joined list contains each of its parts. */
  lemma {:induction false} JoinContains(parts: seq<string>, sep: char, k: nat)
    requires k < |parts|
    ensures Contains(Join(parts, sep), parts[k])
    decreases |parts|
  {
    if |parts| == 1 {
      ContainsMiddle("", parts[0], "");
      assert "" + parts[0] + "" == parts[0];
    } else if k == 0 {
      ContainsMiddle("", parts[0], [sep] + Join(parts[1..], sep));
      assert "" + parts[0] + ([sep] + Join(parts[1..], sep)) == Join(parts, sep);
    } else {
      JoinContains(parts[1..], sep, k - 1);
      ContainsAfter(parts[0] + [sep], Join(parts[1..], sep), parts[k]);
    }
  }

  /** `s.replace(/\\/g, "")`: every backslash removed, every other character kept in order. */
  function DropBackslashes(s: string): string
  {
    if |s| == 0 then ""
    else if s[0] == '\\' then DropBackslashes(s[1..])
    else [s[0]] + DropBackslashes(s[1..])
  }

  /**
   * What is left has no backslash and is no longer than the text; every other character
   * occurs as often as before, and a text without backslashes is left as it is.
   */
  lemma {:induction false} DropBackslashesClean(s: string)
    ensures '\\' !in DropBackslashes(s)
    ensures |DropBackslashes(s)| <= |s|
    ensures forall c :: c != '\\' ==> multiset(DropBackslashes(s))[c] == multiset(s)[c]
    ensures '\\' !in s ==> DropBackslashes(s) == s
    decreases |s|
  {
    if |s| > 0 {
      DropBackslashesClean(s[1..]);
      assert s == [s[0]] + s[1..];
    }
  }

  /**
   * The removal keeps the order of what it keeps: the result for two texts in a row is the
   * result for the first followed by the result for the second.
   */
  lemma {:induction false} DropBackslashesAppend(a: string, b: string)
    ensures DropBackslashes(a + b) == DropBackslashes(a) + DropBackslashes(b)
    decreases |a|
  {
    if a == [] {
      assert a + b == b;
    } else {
      assert (a + b)[1..] == a[1..] + b;
      DropBackslashesAppend(a[1..], b);
    }
  }

  /** The characters `String.prototype.trim` removes: ECMAScript WhiteSpace and LineTerminator. */
  predicate IsJsSpace(c: char)
  {
    c == '\t' || c == '\n' || c == '\U{000B}' || c == '\U{000C}' || c == '\r' || c == ' '
    || c == '\U{00A0}' || c == '\U{1680}' || ('\U{2000}' <= c <= '\U{200A}')
    || c == '\U{2028}' || c == '\U{2029}' || c == '\U{202F}' || c == '\U{205F}'
    || c == '\U{3000}' || c == '\U{FEFF}'
  }

  function TrimStart(s: string): (r: string)
    ensures |r| <= |s|
    ensures |r| > 0 ==> !IsJsSpace(r[0])
  {
    if |s| > 0 && IsJsSpace(s[0]) then TrimStart(s[1..]) else s
  }

  function TrimEnd(s: string): (r: string)
    ensures |r| <= |s|
    ensures |r| > 0 ==> !IsJsSpace(r[|r| - 1])
  {
    if |s| > 0 && IsJsSpace(s[|s| - 1]) then TrimEnd(s[..|s| - 1]) else s
  }

  /** `s.trim()`. */
  function Trim(s: string): string
  {
    TrimEnd(TrimStart(s))
  }

  /** A string made only of JavaScript whitespace trims to nothing, and so is falsy in `!s.trim()`. */
  predicate IsBlank(s: string)
  {
    Trim(s) == ""
  }

  predicate IsDigit(c: char)
  {
    '0' <= c <= '9'
  }

  /** Whether every character is a decimal digit. */
  predicate AllDigits(s: string)
  {
    |s| == 0 || (IsDigit(s[|s| - 1]) && AllDigits(s[..|s| - 1]))
  }

  lemma {:induction false} AllDigitsAt(s: string)
    ensures AllDigits(s) <==> forall k :: 0 <= k < |s| ==> IsDigit(s[k])
    decreases |s|
  {
    if |s| > 0 {
      var init := s[..|s| - 1];
      AllDigitsAt(init);
      assert forall k :: 0 <= k < |init| ==> init[k] == s[k];
    }
  }

  /** The value of a run of decimal digits. */
  function DecimalValue(s: string): nat
    requires AllDigits(s)
  {
    if |s| == 0 then 0
    else 10 * DecimalValue(s[..|s| - 1]) + ((s[|s| - 1] as int) - ('0' as int))
  }

  /** The result of JavaScript's `Number(x)` as it matters here: a non-negative whole number, or NaN. */
  datatype Amount = Num(n: nat) | NaN

  /**
   * `Number(s)` for a string: surrounding whitespace is ignored, the empty string is 0,
   * a run of decimal digits is its value, and anything else is NaN.
   */
  function JsNumber(s: string): Amount
  {
    var t := Trim(s);
    if t == "" then Num(0)
    else if AllDigits(t) then Num(DecimalValue(t))
    else NaN
  }

  /**
   * `Number` reads a blank text as 0, reads a text as a number exactly when it is blank or
   * all digits once trimmed, and then as the value of those digits.
   */
  lemma JsNumberCases(s: string)
    ensures IsBlank(s) ==> JsNumber(s) == Num(0)
    ensures JsNumber(s).Num? <==> IsBlank(s) || forall k :: 0 <= k < |Trim(s)| ==> IsDigit(Trim(s)[k])
    ensures JsNumber(s).Num? && !IsBlank(s) ==> JsNumber(s).n == DecimalValue(Trim(s))
  {
    AllDigitsAt(Trim(s));
  }

  /** A non-empty run of digits has no whitespace to trim and reads as its decimal value. */
  lemma JsNumberDigits(s: string)
    requires s != "" && AllDigits(s)
    ensures Trim(s) == s
    ensures JsNumber(s) == Num(DecimalValue(s))
  {
    AllDigitsAt(s);
    assert TrimStart(s) == s;
    assert TrimEnd(s) == s;
  }

  /** `Number(x)` where `x` may be `undefined`, which converts to NaN. */
  function JsNumberOf(x: Option<string>): Amount
  {
    match x
    case None => NaN
    case Some(s) => JsNumber(s)
  }
}
