/** The functions of Go's strings package that the library relies on. */
module GoStrings {

  /** strings.Split with a one-character separator. */
  function Split(s: string, sep: char): (parts: seq<string>)
    ensures parts != []
  {
    if s == "" then [""]
    else if s[0] == sep then [""] + Split(s[1..], sep)
    else
      var rest := Split(s[1..], sep);
      [[s[0]] + rest[0]] + rest[1..]
  }

  /** strings.Join with a one-character separator. */
  function Join(parts: seq<string>, sep: char): string {
    if parts == [] then ""
    else if |parts| == 1 then parts[0]
    else parts[0] + [sep] + Join(parts[1..], sep)
  }

  predicate Free(s: string, c: char) {
    c !in s
  }

  predicate AllFree(parts: seq<string>, c: char) {
    forall i | 0 <= i < |parts| :: Free(parts[i], c)
  }

  /** Joining after prefixing the first part, and after inserting an empty first part. */
  lemma JoinPrefixed(c: char, parts: seq<string>, sep: char)
    requires parts != []
    ensures Join([[c] + parts[0]] + parts[1..], sep) == [c] + Join(parts, sep)
    ensures Join([""] + parts, sep) == [sep] + Join(parts, sep)
  {
    var prefixed := [[c] + parts[0]] + parts[1..];
    assert prefixed[1..] == parts[1..];
    if |parts| > 1 {
      assert ([c] + parts[0]) + [sep] + Join(parts[1..], sep) == [c] + (parts[0] + [sep] + Join(parts[1..], sep));
    }
    assert ([""] + parts)[1..] == parts;
    assert "" + [sep] + Join(parts, sep) == [sep] + Join(parts, sep);
  }

  lemma {:induction false} JoinOfSplit(s: string, sep: char)
    ensures Join(Split(s, sep), sep) == s
  {
    if s != "" {
      JoinOfSplit(s[1..], sep);
      JoinPrefixed(s[0], Split(s[1..], sep), sep);
      assert s == [s[0]] + s[1..];
    }
  }

  lemma {:induction false} PiecesOfSplit(s: string, sep: char)
    ensures AllFree(Split(s, sep), sep)
  {
    if s != "" {
      PiecesOfSplit(s[1..], sep);
    }
  }

  lemma {:induction false} SplitOfFree(s: string, sep: char)
    requires Free(s, sep)
    ensures Split(s, sep) == [s]
  {
    if s != "" {
      SplitOfFree(s[1..], sep);
      assert s == [s[0]] + s[1..];
    }
  }

  /** Splitting after the first separator. */
  lemma {:induction false} SplitAtSeparator(head: string, tail: string, sep: char)
    requires Free(head, sep)
    ensures Split(head + [sep] + tail, sep) == [head] + Split(tail, sep)
  {
    var s := head + [sep] + tail;
    if head == "" {
      assert s[1..] == tail;
    } else {
      SplitAtSeparator(head[1..], tail, sep);
      assert s[1..] == head[1..] + [sep] + tail;
      assert head == [head[0]] + head[1..];
    }
  }

  lemma {:induction false} SplitOfJoin(parts: seq<string>, sep: char)
    requires parts != [] && AllFree(parts, sep)
    ensures Split(Join(parts, sep), sep) == parts
  {
    if |parts| == 1 {
      SplitOfFree(parts[0], sep);
    } else {
      SplitOfJoin(parts[1..], sep);
      SplitAtSeparator(parts[0], Join(parts[1..], sep), sep);
    }
  }

  predicate IsDigit(c: char) {
    '0' <= c <= '9'
  }

  predicate AllDigits(s: string) {
    forall i | 0 <= i < |s| :: IsDigit(s[i])
  }

  /** unicode.IsSpace, which decides what strings.TrimSpace removes. */
  predicate IsSpace(c: char) {
    c in "\t\n\r " || c == '\U{0B}' || c == '\U{0C}' || c == '\U{85}' || c == '\U{A0}' ||
    c == '\U{1680}' || '\U{2000}' <= c <= '\U{200A}' || c == '\U{2028}' || c == '\U{2029}' ||
    c == '\U{202F}' || c == '\U{205F}' || c == '\U{3000}'
  }

  function TrimLeft(s: string): string {
    if s != "" && IsSpace(s[0]) then TrimLeft(s[1..]) else s
  }

  function TrimRight(s: string): string {
    if s != "" && IsSpace(s[|s| - 1]) then TrimRight(s[..|s| - 1]) else s
  }

  function TrimSpace(s: string): string {
    TrimRight(TrimLeft(s))
  }

  predicate Trimmed(s: string) {
    s == "" || (!IsSpace(s[0]) && !IsSpace(s[|s| - 1]))
  }

  lemma TrimSpaceIsTrimmed(s: string)
    ensures Trimmed(TrimSpace(s))
    ensures Trimmed(s) ==> TrimSpace(s) == s
  {
    TrimRightKeepsHead(TrimLeft(s));
    TrimLeftHead(s);
  }

  lemma TrimLeftHead(s: string)
    ensures TrimLeft(s) == "" || !IsSpace(TrimLeft(s)[0])
  {}

  lemma TrimRightKeepsHead(s: string)
    ensures TrimRight(s) <= s
    ensures TrimRight(s) == "" || !IsSpace(TrimRight(s)[|TrimRight(s)| - 1])
  {}

  lemma {:induction false} TrimLeftIsSuffix(s: string)
    ensures |TrimLeft(s)| <= |s| && TrimLeft(s) == s[|s| - |TrimLeft(s)|..]
  {
    if s != "" && IsSpace(s[0]) {
      TrimLeftIsSuffix(s[1..]);
    }
  }

  /** Trimming introduces no character, so it keeps a string free of one. */
  lemma TrimSpaceKeepsFree(s: string, c: char)
    requires Free(s, c)
    ensures Free(TrimSpace(s), c)
  {
    TrimLeftIsSuffix(s);
    TrimRightKeepsHead(TrimLeft(s));
  }

  predicate AllSpace(s: string) {
    forall i | 0 <= i < |s| :: IsSpace(s[i])
  }

  lemma AsciiSpaces(c: char)
    requires c as int < 128
    ensures IsSpace(c) <==> c in " \t\n\r" || c as int == 11 || c as int == 12
  {}

  /** TrimSpace takes off the padding on both sides and nothing else. */
  lemma TrimSpaceOfPadded(pre: string, core: string, post: string)
    requires AllSpace(pre) && AllSpace(post) && Trimmed(core)
    ensures TrimSpace(pre + core + post) == core
  {
    TrimLeftOfPadded(pre, core + post);
    assert pre + core + post == pre + (core + post);
    if core == "" {
      TrimLeftOfPadded(post, "");
      assert core + post == post == post + "";
    } else {
      TrimRightOfPadded(core, post);
    }
  }

  lemma {:induction false} TrimLeftOfPadded(pre: string, rest: string)
    requires AllSpace(pre)
    ensures TrimLeft(pre + rest) == TrimLeft(rest)
  {
    if pre == "" {
      assert pre + rest == rest;
    } else {
      TrimLeftOfPadded(pre[1..], rest);
      assert (pre + rest)[1..] == pre[1..] + rest;
    }
  }

  lemma {:induction false} TrimRightOfPadded(core: string, post: string)
    requires AllSpace(post) && core != "" && !IsSpace(core[|core| - 1])
    ensures TrimRight(core + post) == core
  {
    if post == "" {
      assert core + post == core;
    } else {
      TrimRightOfPadded(core, post[..|post| - 1]);
      assert (core + post)[..|core + post| - 1] == core + post[..|post| - 1];
    }
  }

  // --------------------------------------------------------- numerals

  function Digit(n: nat): char
    requires n < 10
  {
    "0123456789"[n]
  }

  /** The decimal numeral of n. */
  function Numeral(n: nat): string {
    if n < 10 then [Digit(n)] else Numeral(n / 10) + [Digit(n % 10)]
  }

  lemma DigitsAreTen(c: char)
    ensures IsDigit(c) <==> c in "0123456789"
  {
    assert "0123456789"[0] == '0' && "0123456789"[1] == '1' && "0123456789"[2] == '2' && "0123456789"[3] == '3';
    assert "0123456789"[4] == '4' && "0123456789"[5] == '5' && "0123456789"[6] == '6' && "0123456789"[7] == '7';
    assert "0123456789"[8] == '8' && "0123456789"[9] == '9';
  }

  lemma {:induction false} NumeralIsDigits(n: nat)
    ensures Numeral(n) != "" && AllDigits(Numeral(n)) && Trimmed(Numeral(n)) && Numeral(n)[0] !in "+-"
  {
    if n >= 10 {
      NumeralIsDigits(n / 10);
    }
  }
}
