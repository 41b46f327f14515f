/** The CSV type: a list of strings that travels as one comma-separated string. */
module Csv {
  import opened Prelude
  import opened GoStrings

  const COMMA: char := ','

  /** A CSV value; None is nil. */
  type CSV = Option<seq<string>>

  datatype Json = JNull | JString(s: string) | JStrings(list: seq<string>) | JOther

  function Elements(c: CSV): seq<string> {
    if c.Some? then c.value else []
  }

  function Marshal(c: CSV): Json {
    if c.None? then JNull else JString(Join(c.value, COMMA))
  }

  /** The trimmed pieces that are not empty. */
  function Kept(parts: seq<string>): seq<string> {
    if parts == [] then []
    else
      var v := TrimSpace(parts[|parts| - 1]);
      Kept(parts[..|parts| - 1]) + (if v == "" then [] else [v])
  }

  function Parse(s: string): CSV {
    if s == "" then None else Some(Kept(Split(s, COMMA)))
  }

  /** None is a decoding error. */
  function Decoded(j: Json): Option<CSV> {
    match j
    case JNull => Some(None)
    case JStrings(list) => Some(Some(list))
    case JString(s) => Some(Parse(s))
    case JOther => None
  }

  method Unmarshal(j: Json) returns (r: Option<CSV>)
    ensures r == Decoded(j)
  {
    match j {
      case JNull => return Some(None);
      case JStrings(list) => return Some(Some(list));
      case JOther => return None;
      case JString(s) =>
        if s == "" {
          return Some(None);
        }
        var parts := Split(s, COMMA);
        var list: seq<string> := [];
        for n := 0 to |parts|
          invariant list == Kept(parts[..n])
        {
          assert parts[..n + 1][..n] == parts[..n];
          var v := TrimSpace(parts[n]);
          if v != "" {
            list := list + [v];
          }
        }
        assert parts[..|parts|] == parts;
        return Some(Some(list));
    }
  }

  // ---------------------------------------------------------- properties

  /** Every element is non-empty, comma-free and already trimmed. */
  predicate Normal(list: seq<string>) {
    forall i | 0 <= i < |list| :: list[i] != "" && Free(list[i], COMMA) && Trimmed(list[i])
  }

  lemma {:induction false} KeptIsNormal(parts: seq<string>)
    requires AllFree(parts, COMMA)
    ensures Normal(Kept(parts))
  {
    if parts != [] {
      var last := parts[|parts| - 1];
      KeptIsNormal(parts[..|parts| - 1]);
      TrimSpaceIsTrimmed(last);
      TrimSpaceKeepsFree(last, COMMA);
    }
  }

  lemma {:induction false} NormalIsKept(parts: seq<string>)
    requires Normal(parts)
    ensures Kept(parts) == parts
  {
    if parts != [] {
      NormalIsKept(parts[..|parts| - 1]);
      TrimSpaceIsTrimmed(parts[|parts| - 1]);
      assert parts == parts[..|parts| - 1] + [parts[|parts| - 1]];
    }
  }

  /** Parsing always yields a normal list. */
  lemma ParsedIsNormal(s: string)
    ensures Normal(Elements(Parse(s)))
  {
    PiecesOfSplit(s, COMMA);
    KeptIsNormal(Split(s, COMMA));
  }

  lemma NormalRoundTrips(list: seq<string>)
    requires Normal(list)
    ensures Elements(Parse(Join(list, COMMA))) == list
  {
    if list != [] {
      assert Free(list[0], COMMA) && Join(list, COMMA) != "";
      SplitOfJoin(list, COMMA);
      NormalIsKept(list);
    }
  }

  /** What is marshalled comes back as the same sequence exactly when it is normal. */
  lemma RoundTripIff(c: CSV)
    ensures var back := Decoded(Marshal(c));
            back.Some? && (Elements(back.value) == Elements(c) <==> Normal(Elements(c)))
  {
    if c.Some? {
      ParsedIsNormal(Join(c.value, COMMA));
      if Normal(c.value) {
        NormalRoundTrips(c.value);
      }
    }
  }

  /** Nil-ness survives too, except that an empty list comes back nil. */
  lemma ExactRoundTripIff(c: CSV)
    ensures Decoded(Marshal(c)) == Some(c) <==> Normal(Elements(c)) && c != Some([])
  {
    RoundTripIff(c);
    if c.Some? && c.value != [] && Normal(c.value) {
      assert c.value[0] != "" && Join(c.value, COMMA) != "";
    }
  }

  /** Parsing is stable: re-reading what a parsed value is written as changes nothing. */
  lemma ParseIsStable(s: string)
    ensures Elements(Parse(Join(Elements(Parse(s)), COMMA))) == Elements(Parse(s))
  {
    ParsedIsNormal(s);
    NormalRoundTrips(Elements(Parse(s)));
  }

  // ------------------------------------------------- other inputs

  /** An element as it may be written: padding, the value, padding. */
  datatype Padded = Padded(pre: string, core: string, post: string)

  predicate WellPadded(p: Padded) {
    AllSpace(p.pre) && AllSpace(p.post) && Trimmed(p.core) && Free(p.pre + p.core + p.post, ',')
  }

  function Written(ps: seq<Padded>): seq<string> {
    if ps == [] then [] else Written(ps[..|ps| - 1]) + [ps[|ps| - 1].pre + ps[|ps| - 1].core + ps[|ps| - 1].post]
  }

  function Cores(ps: seq<Padded>): seq<string> {
    if ps == [] then []
    else Cores(ps[..|ps| - 1]) + (if ps[|ps| - 1].core == "" then [] else [ps[|ps| - 1].core])
  }

  lemma {:induction false} KeptOfWritten(ps: seq<Padded>)
    requires forall i | 0 <= i < |ps| :: WellPadded(ps[i])
    ensures |Written(ps)| == |ps| && AllFree(Written(ps), ',') && Kept(Written(ps)) == Cores(ps)
  {
    if ps != [] {
      var n := |ps| - 1;
      KeptOfWritten(ps[..n]);
      TrimSpaceOfPadded(ps[n].pre, ps[n].core, ps[n].post);
      assert Written(ps)[..n] == Written(ps[..n]);
    }
  }

  /** Unmarshalling a string of padded values separated by commas gives the values in order,
      without those that are blank. */
  lemma PaddedValuesAreRead(ps: seq<Padded>)
    requires forall i | 0 <= i < |ps| :: WellPadded(ps[i])
    ensures var back := Decoded(JString(Join(Written(ps), ',')));
            back.Some? && Elements(back.value) == Cores(ps)
  {
    KeptOfWritten(ps);
    if ps != [] {
      SplitOfJoin(Written(ps), ',');
      if Join(Written(ps), ',') == "" {
        assert Split("", ',') == [""] == Written(ps);
        assert [""][..0] == [] && Kept([""]) == [];
      }
    }
  }

  /** A JSON list is taken as it is, untrimmed; null is nil; anything else is an error. Nil is
      written as null, and every other list as one string with commas. */
  lemma OtherForms(list: seq<string>)
    ensures Decoded(JStrings(list)) == Some(Some(list)) && Decoded(JNull) == Some(None) && Decoded(JOther) == None
    ensures Marshal(None) == JNull && Marshal(Some(list)) == JString(Join(list, ','))
  {}
}
