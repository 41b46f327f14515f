/** EncodeSSHKeys against percent-encoding (sections 2.1 and 2.3 of RFC 3986). A Go string is
    a string of bytes here: every character stands for one byte. */
module SshKeys {
  import opened Prelude
  import opened GoStrings

  predicate Bytes(s: string) {
    forall i | 0 <= i < |s| :: s[i] as int < 256
  }

  // ------------------------------------------------------ implementation

  predicate Unreserved(c: char) {
    'A' <= c <= 'Z' || 'a' <= c <= 'z' || '0' <= c <= '9' || c == '-' || c == '_' || c == '.' || c == '~'
  }

  function Hex(n: int): char
    requires 0 <= n < 16
  {
    if n < 10 then '0' + n as char else 'A' + (n - 10) as char
  }

  function Triplet(c: char): string
    requires c as int < 256
  {
    ['%', Hex(c as int / 16), Hex(c as int % 16)]
  }

  /** url.QueryEscape: a space becomes "+". */
  function QueryEscape(s: string): string
    requires Bytes(s)
  {
    if s == "" then ""
    else (if Unreserved(s[0]) then [s[0]] else if s[0] == ' ' then "+" else Triplet(s[0])) + QueryEscape(s[1..])
  }

  /** strings.ReplaceAll(s, "+", "%20") */
  function ReplacePlus(s: string): string {
    if s == "" then "" else (if s[0] == '+' then "%20" else [s[0]]) + ReplacePlus(s[1..])
  }

  const NEWLINE: char := '\n'

  function EncodeSSHKeys(keys: seq<string>): string
    requires Bytes(Join(keys, NEWLINE))
  {
    ReplacePlus(QueryEscape(Join(keys, NEWLINE)))
  }

  // ---------------------------------------------------------- the standard

  /** Percent-encoding that keeps the unreserved characters only. */
  function PercentEncode(s: string): string
    requires Bytes(s)
  {
    if s == "" then "" else (if Unreserved(s[0]) then [s[0]] else Triplet(s[0])) + PercentEncode(s[1..])
  }

  function HexValue(c: char): Option<int> {
    if '0' <= c <= '9' then Some(c as int - '0' as int)
    else if 'A' <= c <= 'F' then Some(c as int - 'A' as int + 10)
    else if 'a' <= c <= 'f' then Some(c as int - 'a' as int + 10)
    else None
  }

  /** Percent-decoding; it accepts only unreserved characters and triplets. */
  function PercentDecode(s: string): Option<string>
    decreases |s|
  {
    if s == "" then Some("")
    else if s[0] == '%' then
      if |s| < 3 || HexValue(s[1]).None? || HexValue(s[2]).None? then None
      else
        var rest := PercentDecode(s[3..]);
        if rest.None? then None
        else
          var code := 16 * HexValue(s[1]).value + HexValue(s[2]).value;
          if 0 <= code < 256 then Some([code as char] + rest.value) else None
    else if Unreserved(s[0]) then
      var rest := PercentDecode(s[1..]);
      if rest.None? then None else Some([s[0]] + rest.value)
    else None
  }

  // ---------------------------------------------------------- properties

  lemma {:induction false} ReplacePlusOfAppend(a: string, b: string)
    ensures ReplacePlus(a + b) == ReplacePlus(a) + ReplacePlus(b)
  {
    if a == "" {
      assert a + b == b;
    } else {
      assert (a + b)[1..] == a[1..] + b;
      ReplacePlusOfAppend(a[1..], b);
    }
  }

  lemma {:induction false} ReplacePlusOfOther(a: string)
    requires '+' !in a
    ensures ReplacePlus(a) == a
  {
    if a != "" {
      ReplacePlusOfOther(a[1..]);
      assert a == [a[0]] + a[1..];
    }
  }

  lemma HexIsHex(n: int)
    requires 0 <= n < 16
    ensures HexValue(Hex(n)) == Some(n) && Hex(n) != '+'
  {}

  lemma {:induction false} EscapeThenReplaceIsPercentEncode(s: string)
    requires Bytes(s)
    ensures ReplacePlus(QueryEscape(s)) == PercentEncode(s)
  {
    hide Hex;
    if s != "" {
      EscapeThenReplaceIsPercentEncode(s[1..]);
      var c := s[0];
      var head := if Unreserved(c) then [c] else if c == ' ' then "+" else Triplet(c);
      ReplacePlusOfAppend(head, QueryEscape(s[1..]));
      if c == ' ' {
        SpaceTriplet();
        assert ReplacePlus("+") == "%20" + ReplacePlus("");
      } else {
        HexIsHex(c as int / 16);
        HexIsHex(c as int % 16);
        ReplacePlusOfOther(head);
      }
    }
  }

  lemma SpaceTriplet()
    ensures Triplet(' ') == "%20"
  {}

  /** EncodeSSHKeys is the percent-encoding of the newline-joined keys. */
  lemma EncodesStrictly(keys: seq<string>)
    requires Bytes(Join(keys, NEWLINE))
    ensures EncodeSSHKeys(keys) == PercentEncode(Join(keys, NEWLINE))
  {
    EscapeThenReplaceIsPercentEncode(Join(keys, NEWLINE));
  }

  /** Only unreserved characters and "%XX" with upper-case digits. */
  predicate WellEncoded(s: string)
    decreases |s|
  {
    s == "" ||
    (if s[0] == '%' then
       |s| >= 3 && HexValue(s[1]).Some? && HexValue(s[2]).Some? && s[1] < 'a' && s[2] < 'a' && WellEncoded(s[3..])
     else Unreserved(s[0]) && WellEncoded(s[1..]))
  }

  lemma {:induction false} EncodingDecodes(s: string)
    requires Bytes(s)
    ensures PercentDecode(PercentEncode(s)) == Some(s)
    ensures WellEncoded(PercentEncode(s)) && '+' !in PercentEncode(s)
  {
    hide Hex;
    if s != "" {
      EncodingDecodes(s[1..]);
      var c, rest := s[0], PercentEncode(s[1..]);
      assert s == [c] + s[1..];
      if Unreserved(c) {
        assert PercentEncode(s) == [c] + rest && ([c] + rest)[1..] == rest;
      } else {
        HexIsHex(c as int / 16);
        HexIsHex(c as int % 16);
        HexIsUpper(c as int / 16);
        HexIsUpper(c as int % 16);
        var t := Triplet(c);
        assert PercentEncode(s) == t + rest && (t + rest)[3..] == rest;
        assert (t + rest)[0] == '%' && (t + rest)[1] == t[1] && (t + rest)[2] == t[2];
      }
    }
  }

  lemma HexIsUpper(n: int)
    requires 0 <= n < 16
    ensures Hex(n) < 'a'
  {}

  /** The output is well formed, has no "+", and decodes back to the joined input. */
  lemma EncodingIsFaithful(keys: seq<string>)
    requires Bytes(Join(keys, NEWLINE))
    ensures WellEncoded(EncodeSSHKeys(keys)) && '+' !in EncodeSSHKeys(keys)
    ensures PercentDecode(EncodeSSHKeys(keys)) == Some(Join(keys, NEWLINE))
  {
    EncodesStrictly(keys);
    EncodingDecodes(Join(keys, NEWLINE));
  }

  /** Decoding and splitting at newlines yields the original non-empty list exactly when no
      key contains a newline. */
  lemma KeysAreRecoveredIff(keys: seq<string>)
    requires keys != [] && Bytes(Join(keys, '\n'))
    ensures PercentDecode(EncodeSSHKeys(keys)).Some? &&
            (Split(PercentDecode(EncodeSSHKeys(keys)).value, '\n') == keys <==> AllFree(keys, '\n'))
  {
    EncodingIsFaithful(keys);
    if AllFree(keys, NEWLINE) {
      SplitOfJoin(keys, NEWLINE);
    }
    PiecesOfSplit(Join(keys, NEWLINE), NEWLINE);
  }

  /** The unreserved characters of section 2.3 of RFC 3986: the letters %41-%5A and %61-%7A, the
      digits %30-%39, hyphen %2D, period %2E, underscore %5F and tilde %7E. */
  lemma UnreservedIff(c: char)
    ensures Unreserved(c) <==>
            var n := c as int;
            0x41 <= n <= 0x5A || 0x61 <= n <= 0x7A || 0x30 <= n <= 0x39 || n == 0x2D || n == 0x2E || n == 0x5F || n == 0x7E
  {}
}
