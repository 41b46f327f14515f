/** Path templates: the schema's "/nodes/{node}" and the library's "/nodes/%s" are joined
    through one normal form. */
module PathTemplates {
  import opened Prelude

  // ------------------------------------------------------ normalizePath

  function IndexOf(s: string, c: char): (i: nat)
    ensures i <= |s| && c !in s[..i] && (i < |s| ==> s[i] == c)
  {
    if s == "" || s[0] == c then 0
    else
      var j := IndexOf(s[1..], c);
      assert s[..j + 1] == [s[0]] + s[1..][..j];
      1 + j
  }

  /** The length of the match of \{[^}]+\} at the head of s, or 0. */
  function BraceMatch(s: string): (n: nat)
    ensures n <= |s|
  {
    if s == "" || s[0] != '{' then 0
    else
      var close := IndexOf(s[1..], '}');
      if close == 0 || close == |s[1..]| then 0 else close + 2
  }

  /** braceRE.ReplaceAllString(s, "{}") */
  function Braces(s: string): string
    decreases |s|
  {
    if s == "" then ""
    else
      var n := BraceMatch(s);
      if n > 0 then "{}" + Braces(s[n..]) else [s[0]] + Braces(s[1..])
  }

  predicate Verb(c: char) {
    c in "sdvqxXt"
  }

  lemma VerbsAreSeven(c: char)
    ensures Verb(c) <==> c == 's' || c == 'd' || c == 'v' || c == 'q' || c == 'x' || c == 'X' || c == 't'
  {}

  /** fmtVerbRE.ReplaceAllString(s, "{}") */
  function Verbs(s: string): string
    decreases |s|
  {
    if s == "" then ""
    else if |s| >= 2 && s[0] == '%' && Verb(s[1]) then "{}" + Verbs(s[2..])
    else [s[0]] + Verbs(s[1..])
  }

  const VOLID := "{}:{}/{}"

  /** volidRE.ReplaceAllString(s, "{}") */
  function Volids(s: string): string
    decreases |s|
  {
    if s == "" then ""
    else if |s| >= |VOLID| && s[..|VOLID|] == VOLID then "{}" + Volids(s[|VOLID|..])
    else [s[0]] + Volids(s[1..])
  }

  function TrimSlashes(s: string): string {
    if s != "" && s[|s| - 1] == '/' then TrimSlashes(s[..|s| - 1]) else s
  }

  function NormalizePath(p: string): string {
    var q := Volids(Verbs(Braces(p[..IndexOf(p, '?')])));
    if |q| > 1 then TrimSlashes(q) else q
  }

  // ---------------------------------------------------------- templates

  /** A segment with the details that its two renderings add: the schema's variable name and
      the format verbs of the Go call. Volume is a storage volume id: one variable in the
      schema, storage:type/file in Go. */
  datatype Segment =
    | Literal(text: string)
    | Hole(name: string, verb: char)
    | Volume(name: string, storage: char, kind: char, file: char)

  datatype Shape = Fixed(text: string) | Variable

  function ShapeOf(s: Segment): Shape {
    if s.Literal? then Fixed(s.text) else Variable
  }

  predicate WellFormed(s: Segment) {
    match s
    case Literal(text) =>
      text != "" && '/' !in text && '?' !in text && '{' !in text && '}' !in text && '%' !in text && ':' !in text
    case Hole(name, verb) => name != "" && '}' !in name && '?' !in name && Verb(verb)
    case Volume(name, v1, v2, v3) =>
      name != "" && '}' !in name && '?' !in name && Verb(v1) && Verb(v2) && Verb(v3)
  }

  predicate Template(t: seq<Segment>) {
    t != [] && forall i | 0 <= i < |t| :: WellFormed(t[i])
  }

  function SchemaSegment(s: Segment): string {
    "/" + if s.Literal? then s.text else "{" + s.name + "}"
  }

  function GoSegment(s: Segment): string {
    match s
    case Literal(text) => "/" + text
    case Hole(_, verb) => "/%" + [verb]
    case Volume(_, v1, v2, v3) => "/%" + [v1] + ":%" + [v2] + "/%" + [v3]
  }

  /** A Go segment after its verbs were replaced. */
  function OpenSegment(s: Segment): string {
    match s
    case Literal(text) => "/" + text
    case Hole(_, _) => "/{}"
    case Volume(_, _, _, _) => "/" + VOLID
  }

  function CanonSegment(s: Segment): string {
    if s.Literal? then "/" + s.text else "/{}"
  }

  function Render(t: seq<Segment>, f: Segment -> string): string {
    if t == [] then "" else f(t[0]) + Render(t[1..], f)
  }

  function Schema(t: seq<Segment>): string {
    Render(t, SchemaSegment)
  }

  function Slashes(n: nat): string {
    if n == 0 then "" else "/" + Slashes(n - 1)
  }

  /** The Go rendering, with trailing slashes and perhaps a query string. */
  function Go(t: seq<Segment>, slashes: nat, query: Option<string>): string {
    Render(t, GoSegment) + Slashes(slashes) + if query.Some? then "?" + query.value else ""
  }

  function Canon(t: seq<Segment>): string {
    Render(t, CanonSegment)
  }

  // ------------------------------------------- each pass, segment by segment

  lemma {:induction false} BracesCopy(s: string, rest: string)
    requires '{' !in s
    ensures Braces(s + rest) == s + Braces(rest)
  {
    hide IndexOf;
    if s == "" {
      assert s + rest == rest;
    } else {
      assert (s + rest)[0] == s[0] && (s + rest)[1..] == s[1..] + rest;
      BracesCopy(s[1..], rest);
      assert s + Braces(rest) == [s[0]] + (s[1..] + Braces(rest));
    }
  }

  lemma {:induction false} VerbsCopy(s: string, rest: string)
    requires '%' !in s
    ensures Verbs(s + rest) == s + Verbs(rest)
  {
    if s == "" {
      assert s + rest == rest;
    } else {
      assert (s + rest)[1..] == s[1..] + rest;
      VerbsCopy(s[1..], rest);
    }
  }

  lemma {:induction false} VolidsCopy(s: string, rest: string)
    requires '{' !in s
    ensures Volids(s + rest) == s + Volids(rest)
  {
    if s == "" {
      assert s + rest == rest;
    } else {
      assert (s + rest)[1..] == s[1..] + rest;
      assert |s + rest| >= |VOLID| ==> (s + rest)[..|VOLID|][0] == s[0] != VOLID[0];
      VolidsCopy(s[1..], rest);
    }
  }

  lemma {:induction false} IndexOfFirst(s: string, c: char, rest: string)
    requires c !in s
    ensures IndexOf(s + [c] + rest, c) == |s|
  {
    if s != "" {
      assert (s + [c] + rest)[1..] == s[1..] + [c] + rest;
      IndexOfFirst(s[1..], c, rest);
    }
  }

  lemma {:induction false} IndexOfNone(s: string, c: char)
    requires c !in s
    ensures IndexOf(s, c) == |s|
  {}

  lemma BracesOfVariable(name: string, rest: string)
    requires name != "" && '}' !in name
    ensures Braces("{" + name + "}" + rest) == "{}" + Braces(rest)
  {
    hide IndexOf;
    var s := "{" + name + "}" + rest;
    assert s[1..] == name + ['}'] + rest;
    IndexOfFirst(name, '}', rest);
    assert BraceMatch(s) == |name| + 2 && s[|name| + 2..] == rest;
  }

  lemma BracesOfHole(rest: string)
    ensures Braces("{}" + rest) == "{}" + Braces(rest)
  {
    hide IndexOf;
    var s := "{}" + rest;
    assert s[1..] == "" + ['}'] + rest == "}" + rest;
    IndexOfFirst("", '}', rest);
    assert BraceMatch(s) == 0;
    BracesCopy("}", rest);
    assert "{" + ("}" + Braces(rest)) == "{}" + Braces(rest);
  }

  /** The brace pass: it turns schema variables into holes and leaves the rest alone. */
  lemma BracesOnSegment(s: Segment, rest: string)
    requires WellFormed(s)
    ensures Braces(SchemaSegment(s) + rest) == CanonSegment(s) + Braces(rest)
    ensures Braces(GoSegment(s) + rest) == GoSegment(s) + Braces(rest)
    ensures Braces(CanonSegment(s) + rest) == CanonSegment(s) + Braces(rest)
  {
    hide Braces;
    BracesCopy(GoSegment(s), rest);
    if s.Literal? {
      BracesCopy("/" + s.text, rest);
    } else {
      BracesCopy("/", "{" + s.name + "}" + rest);
      BracesCopy("/", "{}" + rest);
      assert SchemaSegment(s) + rest == "/" + ("{" + s.name + "}" + rest);
      assert CanonSegment(s) + rest == "/" + ("{}" + rest);
      BracesOfVariable(s.name, rest);
      BracesOfHole(rest);
      assert CanonSegment(s) + Braces(rest) == "/" + ("{}" + Braces(rest));
    }
  }

  lemma VerbsOfVerb(c: char, rest: string)
    requires Verb(c)
    ensures Verbs("%" + [c] + rest) == "{}" + Verbs(rest)
  {
    var s := "%" + [c] + rest;
    assert s[0] == '%' && s[1] == c && s[2..] == rest;
  }

  /** A separator followed by a verb. */
  lemma VerbsOfPair(sep: char, c: char, rest: string)
    requires Verb(c) && sep != '%'
    ensures Verbs([sep] + "%" + [c] + rest) == [sep] + "{}" + Verbs(rest)
  {
    hide Verbs;
    VerbsOfVerb(c, rest);
    VerbsCopy([sep], "%" + [c] + rest);
    assert [sep] + "%" + [c] + rest == [sep] + ("%" + [c] + rest);
    assert [sep] + "{}" + Verbs(rest) == [sep] + ("{}" + Verbs(rest));
  }

  lemma VerbsOfVolume(v1: char, v2: char, v3: char, rest: string)
    requires Verb(v1) && Verb(v2) && Verb(v3)
    ensures Verbs("/%" + [v1] + ":%" + [v2] + "/%" + [v3] + rest) == "/" + VOLID + Verbs(rest)
  {
    hide Verbs;
    var r3 := ['/'] + "%" + [v3] + rest;
    var r2 := [':'] + "%" + [v2] + r3;
    assert "/%" + [v1] + ":%" + [v2] + "/%" + [v3] + rest == ['/'] + "%" + [v1] + r2;
    VerbsOfPair('/', v1, r2);
    VerbsOfPair(':', v2, r3);
    VerbsOfPair('/', v3, rest);
    assert ['/'] + "{}" + ([':'] + "{}" + (['/'] + "{}" + Verbs(rest))) == "/" + VOLID + Verbs(rest);
  }

  /** The verb pass: it opens the holes of a Go segment and leaves a canonical one alone. */
  lemma VerbsOnSegment(s: Segment, rest: string)
    requires WellFormed(s)
    ensures Verbs(GoSegment(s) + rest) == OpenSegment(s) + Verbs(rest)
    ensures Verbs(CanonSegment(s) + rest) == CanonSegment(s) + Verbs(rest)
  {
    hide Verbs;
    VerbsCopy(CanonSegment(s), rest);
    match s
    case Literal(text) => VerbsCopy("/" + text, rest);
    case Hole(_, verb) =>
      VerbsOfPair('/', verb, rest);
      assert GoSegment(s) + rest == ['/'] + "%" + [verb] + rest;
      assert OpenSegment(s) + Verbs(rest) == ['/'] + "{}" + Verbs(rest);
    case Volume(_, v1, v2, v3) => VerbsOfVolume(v1, v2, v3, rest);
  }

  /** The rest of a template is empty or starts with a slash. */
  predicate Boundary(rest: string) {
    rest == "" || rest[0] == '/'
  }

  lemma VolidsOfHole(rest: string)
    requires Boundary(rest)
    ensures Volids("{}" + rest) == "{}" + Volids(rest)
  {
    var s := "{}" + rest;
    assert |s| >= |VOLID| ==> s[..|VOLID|][2] == '/' != VOLID[2];
    assert s[1..] == "}" + rest;
    VolidsCopy("}", rest);
  }

  lemma VolidsOfVolid(rest: string)
    ensures Volids(VOLID + rest) == "{}" + Volids(rest)
  {
    var s := VOLID + rest;
    assert s[..|VOLID|] == VOLID && s[|VOLID|..] == rest;
  }

  /** The volume pass: it closes a volume id and leaves a canonical segment alone. */
  lemma VolidsOnSegment(s: Segment, rest: string)
    requires WellFormed(s) && Boundary(rest)
    ensures Volids(OpenSegment(s) + rest) == CanonSegment(s) + Volids(rest)
    ensures Volids(CanonSegment(s) + rest) == CanonSegment(s) + Volids(rest)
  {
    hide Volids;
    if s.Literal? {
      VolidsCopy("/" + s.text, rest);
    } else {
      assert "/{}" + rest == "/" + ("{}" + rest);
      VolidsCopy("/", "{}" + rest);
      VolidsOfHole(rest);
      assert "/" + ("{}" + Volids(rest)) == "/{}" + Volids(rest);
      if s.Volume? {
        assert OpenSegment(s) + rest == "/" + (VOLID + rest);
        VolidsCopy("/", VOLID + rest);
        VolidsOfVolid(rest);
      }
    }
  }

  // --------------------------------------------------- whole templates

  lemma {:induction false} BracesOnTemplate(t: seq<Segment>, rest: string)
    requires forall i | 0 <= i < |t| :: WellFormed(t[i])
    ensures Braces(Schema(t) + rest) == Canon(t) + Braces(rest)
    ensures Braces(Render(t, GoSegment) + rest) == Render(t, GoSegment) + Braces(rest)
    ensures Braces(Canon(t) + rest) == Canon(t) + Braces(rest)
  {
    hide Braces, SchemaSegment, GoSegment, CanonSegment;
    if t == [] {
      assert "" + rest == rest;
    } else {
      BracesOnTemplate(t[1..], rest);
      BracesOnSegment(t[0], Schema(t[1..]) + rest);
      BracesOnSegment(t[0], Render(t[1..], GoSegment) + rest);
      BracesOnSegment(t[0], Canon(t[1..]) + rest);
      Regroup(t, SchemaSegment, rest);
      Regroup(t, GoSegment, rest);
      Regroup(t, CanonSegment, rest);
      Regroup(t, CanonSegment, Braces(rest));
      Regroup(t, GoSegment, Braces(rest));
    }
  }

  lemma Regroup(t: seq<Segment>, f: Segment -> string, rest: string)
    requires t != []
    ensures Render(t, f) + rest == f(t[0]) + (Render(t[1..], f) + rest)
  {}

  lemma {:induction false} VerbsOnTemplate(t: seq<Segment>, rest: string)
    requires forall i | 0 <= i < |t| :: WellFormed(t[i])
    ensures Verbs(Render(t, GoSegment) + rest) == Render(t, OpenSegment) + Verbs(rest)
    ensures Verbs(Canon(t) + rest) == Canon(t) + Verbs(rest)
  {
    hide Verbs, GoSegment, OpenSegment, CanonSegment;
    if t == [] {
      assert "" + rest == rest;
    } else {
      VerbsOnTemplate(t[1..], rest);
      VerbsOnSegment(t[0], Render(t[1..], GoSegment) + rest);
      VerbsOnSegment(t[0], Canon(t[1..]) + rest);
      Regroup(t, GoSegment, rest);
      Regroup(t, CanonSegment, rest);
      Regroup(t, OpenSegment, Verbs(rest));
      Regroup(t, CanonSegment, Verbs(rest));
    }
  }

  lemma RenderBoundary(t: seq<Segment>, rest: string)
    requires Boundary(rest)
    ensures Boundary(Render(t, OpenSegment) + rest) && Boundary(Canon(t) + rest)
  {}

  lemma {:induction false} VolidsOnTemplate(t: seq<Segment>, rest: string)
    requires (forall i | 0 <= i < |t| :: WellFormed(t[i])) && Boundary(rest)
    ensures Volids(Render(t, OpenSegment) + rest) == Canon(t) + Volids(rest)
    ensures Volids(Canon(t) + rest) == Canon(t) + Volids(rest)
  {
    hide Volids, OpenSegment, CanonSegment;
    if t == [] {
      assert "" + rest == rest;
    } else {
      VolidsOnTemplate(t[1..], rest);
      RenderBoundary(t[1..], rest);
      Regroup(t, OpenSegment, rest);
      Regroup(t, CanonSegment, rest);
      Regroup(t, CanonSegment, Volids(rest));
      VolidsOnSegment(t[0], Render(t[1..], OpenSegment) + rest);
      VolidsOnSegment(t[0], Canon(t[1..]) + rest);
    }
  }

  lemma {:induction false} PassesKeepSlashes(n: nat)
    ensures Braces(Slashes(n)) == Verbs(Slashes(n)) == Volids(Slashes(n)) == Slashes(n)
    ensures Boundary(Slashes(n)) && '?' !in Slashes(n)
  {
    if n > 0 {
      PassesKeepSlashes(n - 1);
      BracesCopy("/", Slashes(n - 1));
      VerbsCopy("/", Slashes(n - 1));
      VolidsCopy("/", Slashes(n - 1));
    }
  }

  lemma SegmentHasNoQuestionMark(s: Segment)
    requires WellFormed(s)
    ensures '?' !in SchemaSegment(s) && '?' !in GoSegment(s) && '?' !in CanonSegment(s)
  {}

  lemma {:induction false} RenderHasNoQuestionMark(t: seq<Segment>, f: Segment -> string)
    requires forall i | 0 <= i < |t| :: '?' !in f(t[i])
    ensures '?' !in Render(t, f)
  {
    if t != [] {
      RenderHasNoQuestionMark(t[1..], f);
    }
  }

  lemma NoQuestionMark(t: seq<Segment>)
    requires forall i | 0 <= i < |t| :: WellFormed(t[i])
    ensures '?' !in Schema(t) && '?' !in Render(t, GoSegment) && '?' !in Canon(t)
  {
    hide SchemaSegment, GoSegment, CanonSegment, Render, WellFormed;
    forall i | 0 <= i < |t|
      ensures '?' !in SchemaSegment(t[i]) && '?' !in GoSegment(t[i]) && '?' !in CanonSegment(t[i])
    {
      SegmentHasNoQuestionMark(t[i]);
    }
    RenderHasNoQuestionMark(t, SchemaSegment);
    RenderHasNoQuestionMark(t, GoSegment);
    RenderHasNoQuestionMark(t, CanonSegment);
  }

  lemma {:induction false} CanonEnd(t: seq<Segment>)
    requires Template(t)
    ensures |Canon(t)| > 1 && Canon(t)[|Canon(t)| - 1] != '/'
  {
    if |t| > 1 {
      CanonEnd(t[1..]);
    } else {
      assert Render(t[1..], CanonSegment) == "";
      assert Canon(t) == CanonSegment(t[0]) + "" == CanonSegment(t[0]);
      if t[0].Literal? {
        var text := t[0].text;
        assert Canon(t)[|text|] == text[|text| - 1];
      }
    }
  }

  lemma {:induction false} TrimAfterSlashes(s: string, n: nat)
    requires s != "" && s[|s| - 1] != '/'
    ensures TrimSlashes(s + Slashes(n)) == s
  {
    if n == 0 {
      assert s + "" == s;
    } else {
      SlashesEnd(n);
      assert (s + Slashes(n))[..|s + Slashes(n)| - 1] == s + Slashes(n - 1);
      TrimAfterSlashes(s, n - 1);
    }
  }

  lemma {:induction false} SlashesEnd(n: nat)
    requires n > 0
    ensures |Slashes(n)| > 0 && Slashes(n)[|Slashes(n)| - 1] == '/' && Slashes(n)[..|Slashes(n)| - 1] == Slashes(n - 1)
  {
    if n > 1 {
      SlashesEnd(n - 1);
      var s := Slashes(n - 1);
      assert Slashes(n) == "/" + s;
      assert ("/" + s)[..|s|] == "/" + s[..|s| - 1];
    }
  }

  lemma CutAtQuery(path: string, query: Option<string>)
    requires '?' !in path
    ensures var p := path + if query.Some? then "?" + query.value else "";
            p[..IndexOf(p, '?')] == path
  {
    var p := path + if query.Some? then "?" + query.value else "";
    if query.Some? {
      assert p == path + ['?'] + query.value;
      IndexOfFirst(path, '?', query.value);
    } else {
      assert p == path;
      IndexOfNone(path, '?');
    }
  }

  // ------------------------------------------------------------ theorems

  /** The schema rendering of a template normalises to its canonical form. */
  lemma SchemaNormalizes(t: seq<Segment>)
    requires Template(t)
    ensures NormalizePath(Schema(t)) == Canon(t)
  {
    hide Braces, Verbs, Volids, IndexOf;
    PassesKeepSlashes(0);
    NoQuestionMark(t);
    CutAtQuery(Schema(t), None);
    BracesOnTemplate(t, "");
    VerbsOnTemplate(t, "");
    VolidsOnTemplate(t, "");
    assert Schema(t) + "" == Schema(t) && Canon(t) + "" == Canon(t);
    CanonEnd(t);
    TrimAfterSlashes(Canon(t), 0);
  }

  /** So does every Go rendering, whatever its verbs, trailing slashes and query string. */
  lemma GoNormalizes(t: seq<Segment>, slashes: nat, query: Option<string>)
    requires Template(t)
    ensures NormalizePath(Go(t, slashes, query)) == Canon(t)
  {
    hide Braces, Verbs, Volids, IndexOf;
    var tail := Slashes(slashes);
    PassesKeepSlashes(slashes);
    NoQuestionMark(t);
    CutAtQuery(Render(t, GoSegment) + tail, query);
    BracesOnTemplate(t, tail);
    VerbsOnTemplate(t, tail);
    VolidsOnTemplate(t, tail);
    CanonEnd(t);
    TrimAfterSlashes(Canon(t), slashes);
  }

  /** A canonical form is a fixed point. */
  lemma CanonIsFixed(t: seq<Segment>)
    requires Template(t)
    ensures NormalizePath(Canon(t)) == Canon(t)
  {
    hide Braces, Verbs, Volids, IndexOf;
    PassesKeepSlashes(0);
    NoQuestionMark(t);
    CutAtQuery(Canon(t), None);
    BracesOnTemplate(t, "");
    VerbsOnTemplate(t, "");
    VolidsOnTemplate(t, "");
    assert Canon(t) + "" == Canon(t);
    CanonEnd(t);
    TrimAfterSlashes(Canon(t), 0);
  }

  /** The root is not a template: of its spellings only a single slash keeps it. */
  lemma RootNormalizes(slashes: nat)
    ensures NormalizePath(Slashes(slashes)) == if slashes == 1 then "/" else ""
  {
    hide Braces, Verbs, Volids, IndexOf;
    PassesKeepSlashes(slashes);
    CutAtQuery(Slashes(slashes), None);
    assert Slashes(slashes) + "" == Slashes(slashes);
    SlashesHaveLength(slashes);
    OnlySlashes(slashes);
  }

  lemma {:induction false} SlashesHaveLength(n: nat)
    ensures |Slashes(n)| == n
  {
    if n > 0 {
      SlashesHaveLength(n - 1);
    }
  }

  lemma {:induction false} OnlySlashes(n: nat)
    ensures TrimSlashes(Slashes(n)) == ""
  {
    if n > 0 {
      SlashesEnd(n);
      OnlySlashes(n - 1);
    }
  }

  function Shapes(t: seq<Segment>): seq<Shape> {
    if t == [] then [] else [ShapeOf(t[0])] + Shapes(t[1..])
  }

  /** The first segment of a canonical form can be read back. */
  lemma FirstSegment(s: Segment, rest: string)
    requires WellFormed(s) && Boundary(rest)
    ensures var p := CanonSegment(s) + rest;
            |p| > 1 && IndexOf(p[1..], '/') == |CanonSegment(s)| - 1
  {
    var p := CanonSegment(s) + rest;
    var body := CanonSegment(s)[1..];
    assert '/' !in body;
    if rest == "" {
      assert p[1..] == body;
      IndexOfNone(body, '/');
    } else {
      assert p[1..] == body + ['/'] + rest[1..];
      IndexOfFirst(body, '/', rest[1..]);
    }
  }

  lemma CanonBoundary(t: seq<Segment>)
    ensures Boundary(Canon(t))
  {}

  /** Templates normalise to the same string exactly when they have the same shape. */
  lemma {:induction false} CanonDeterminesShape(t: seq<Segment>, u: seq<Segment>)
    requires forall i | 0 <= i < |t| :: WellFormed(t[i])
    requires forall i | 0 <= i < |u| :: WellFormed(u[i])
    ensures Canon(t) == Canon(u) <==> Shapes(t) == Shapes(u)
  {
    if t != [] && u != [] {
      CanonDeterminesShape(t[1..], u[1..]);
      CanonBoundary(t[1..]);
      CanonBoundary(u[1..]);
      FirstSegment(t[0], Canon(t[1..]));
      FirstSegment(u[0], Canon(u[1..]));
      SegmentDeterminesShape(t[0], u[0]);
      var (n, m) := (|CanonSegment(t[0])|, |CanonSegment(u[0])|);
      assert Canon(t)[..n] == CanonSegment(t[0]) && Canon(t)[n..] == Canon(t[1..]);
      assert Canon(u)[..m] == CanonSegment(u[0]) && Canon(u)[m..] == Canon(u[1..]);
      assert Shapes(t)[0] == ShapeOf(t[0]) && Shapes(t)[1..] == Shapes(t[1..]);
      assert Shapes(u)[0] == ShapeOf(u[0]) && Shapes(u)[1..] == Shapes(u[1..]);
    }
  }

  lemma SegmentDeterminesShape(s: Segment, r: Segment)
    requires WellFormed(s) && WellFormed(r)
    ensures CanonSegment(s) == CanonSegment(r) <==> ShapeOf(s) == ShapeOf(r)
  {
    assert CanonSegment(s)[1..] == if s.Literal? then s.text else "{}";
    assert CanonSegment(r)[1..] == if r.Literal? then r.text else "{}";
    assert '{' in "{}";
  }

  // ------------------------------------------------ arbitrary strings

  /** p[i..j] is "{" and at least one character that is not "}"; p[j] closes it. */
  predicate VariableAt(p: string, i: int, j: int) {
    0 <= i && i + 1 < j < |p| && p[i] == '{' && p[j] == '}' && forall k | i < k < j :: p[k] != '}'
  }

  /** p has a match of \{[^}]+\}. */
  ghost predicate HasVariable(p: string) {
    exists i, j :: VariableAt(p, i, j)
  }

  /** p has a match of %[sdvqxXt]. */
  predicate HasVerb(p: string) {
    exists i | 0 <= i < |p| - 1 :: p[i] == '%' && Verb(p[i + 1])
  }

  predicate VolidAt(p: string, i: int) {
    0 <= i <= |p| - |VOLID| && p[i..][..|VOLID|] == VOLID
  }

  /** p contains the text of an opened volume id. */
  ghost predicate HasVolid(p: string) {
    exists i :: VolidAt(p, i)
  }

  /** p ends in a slash and is more than that slash. */
  predicate HasTrailingSlash(p: string) {
    |p| > 1 && p[|p| - 1] == '/'
  }

  lemma BraceMatchIff(p: string)
    requires p != ""
    ensures BraceMatch(p) > 0 <==> exists j :: VariableAt(p, 0, j)
    ensures BraceMatch(p) > 0 ==> BraceMatch(p) > 2
  {
    var close := IndexOf(p[1..], '}');
    if BraceMatch(p) > 0 {
      assert forall k | 0 < k < close + 1 :: p[k] == p[1..][..close][k - 1];
      assert VariableAt(p, 0, close + 1);
    }
    if j :| VariableAt(p, 0, j) {
      assert p[1..][j - 1] == '}';
      assert close < |p[1..]| && p[close + 1] == '}';
    }
  }

  lemma VariableOfTail(p: string)
    requires p != ""
    ensures HasVariable(p) <==> BraceMatch(p) > 0 || HasVariable(p[1..])
  {
    hide BraceMatch;
    BraceMatchIff(p);
    forall i, j | VariableAt(p[1..], i, j) ensures VariableAt(p, i + 1, j + 1) {
      assert forall k | i + 1 < k < j + 1 :: p[k] == p[1..][k - 1];
    }
    forall i, j | 0 < i && VariableAt(p, i, j) ensures VariableAt(p[1..], i - 1, j - 1) {}
    if i, j :| VariableAt(p[1..], i, j) {
      assert VariableAt(p, i + 1, j + 1);
    }
    if i, j :| VariableAt(p, i, j) {
      assert i == 0 || VariableAt(p[1..], i - 1, j - 1);
    }
  }

  /** The brace pass shortens a string with a variable and leaves every other one alone. */
  lemma {:induction false} BracesFixedIff(p: string)
    ensures |Braces(p)| <= |p|
    ensures if HasVariable(p) then |Braces(p)| < |p| else Braces(p) == p
    decreases |p|
  {
    hide BraceMatch, HasVariable;
    if p == "" {
      NoVariableInEmpty();
    } else {
      VariableOfTail(p);
      BraceMatchIff(p);
      if BraceMatch(p) > 0 {
        BracesFixedIff(p[BraceMatch(p)..]);
      } else {
        BracesFixedIff(p[1..]);
        assert p == [p[0]] + p[1..];
      }
    }
  }

  lemma NoVariableInEmpty()
    ensures !HasVariable("")
  {}

  lemma VerbOfTail(p: string)
    requires p != ""
    ensures HasVerb(p) <==> (|p| >= 2 && p[0] == '%' && Verb(p[1])) || HasVerb(p[1..])
  {
    var t := p[1..];
    if i :| 0 <= i < |t| - 1 && t[i] == '%' && Verb(t[i + 1]) {
      assert p[i + 1] == '%' && Verb(p[i + 2]);
    }
    if i :| 0 <= i < |p| - 1 && p[i] == '%' && Verb(p[i + 1]) {
      assert i > 0 ==> t[i - 1] == '%' && Verb(t[i]);
    }
  }

  function Percents(p: string): nat {
    if p == "" then 0 else (if p[0] == '%' then 1 else 0) + Percents(p[1..])
  }

  /** The verb pass keeps the length, and lowers the number of percent signs exactly when there
      is a verb; otherwise it changes nothing. */
  lemma {:induction false} VerbsFixedIff(p: string)
    ensures Percents(Verbs(p)) <= Percents(p)
    ensures if HasVerb(p) then Percents(Verbs(p)) < Percents(p) else Verbs(p) == p
    decreases |p|
  {
    hide HasVerb;
    if p == "" {
      NoVerbInShort(p);
    } else {
      VerbOfTail(p);
      if |p| >= 2 && p[0] == '%' && Verb(p[1]) {
        VerbsFixedIff(p[2..]);
        assert Percents(p[1..]) >= Percents(p[1..][1..]) && p[1..][1..] == p[2..];
        var rest := Verbs(p[2..]);
        assert ("{}" + rest)[1..] == "}" + rest && ("}" + rest)[1..] == rest;
      } else {
        VerbsFixedIff(p[1..]);
        assert p == [p[0]] + p[1..];
        assert ([p[0]] + Verbs(p[1..]))[1..] == Verbs(p[1..]);
      }
    }
  }

  lemma NoVerbInShort(p: string)
    requires |p| < 2
    ensures !HasVerb(p)
  {}

  lemma VolidOfTail(p: string)
    requires p != ""
    ensures HasVolid(p) <==> (|p| >= |VOLID| && p[..|VOLID|] == VOLID) || HasVolid(p[1..])
  {
    assert p[0..] == p;
    if i :| VolidAt(p[1..], i) {
      assert p[1..][i..] == p[i + 1..];
      assert VolidAt(p, i + 1);
    }
    if i :| VolidAt(p, i) {
      if i > 0 {
        assert p[1..][i - 1..] == p[i..];
        assert VolidAt(p[1..], i - 1);
      }
    }
    if |p| >= |VOLID| && p[..|VOLID|] == VOLID {
      assert VolidAt(p, 0);
    }
  }

  /** The volume pass shortens a string with an opened volume id and leaves every other one alone. */
  lemma {:induction false} VolidsFixedIff(p: string)
    ensures |Volids(p)| <= |p|
    ensures if HasVolid(p) then |Volids(p)| < |p| else Volids(p) == p
    decreases |p|
  {
    hide HasVolid;
    if p == "" {
      NoVolidInEmpty();
    } else {
      VolidOfTail(p);
      if |p| >= |VOLID| && p[..|VOLID|] == VOLID {
        VolidsFixedIff(p[|VOLID|..]);
      } else {
        VolidsFixedIff(p[1..]);
        assert p == [p[0]] + p[1..];
      }
    }
  }

  lemma NoVolidInEmpty()
    ensures !HasVolid("")
  {}

  lemma {:induction false} TrimSlashesIsPrefix(p: string)
    ensures TrimSlashes(p) <= p && !HasTrailingSlash(TrimSlashes(p))
    ensures p != "" ==> (TrimSlashes(p) == p <==> p[|p| - 1] != '/')
  {
    if p != "" && p[|p| - 1] == '/' {
      TrimSlashesIsPrefix(p[..|p| - 1]);
    }
  }

  lemma VerbsKeepLength(p: string)
    ensures |Verbs(p)| == |p|
  {
    if p != "" {
      if |p| >= 2 && p[0] == '%' && Verb(p[1]) {
        VerbsKeepLength(p[2..]);
      } else {
        VerbsKeepLength(p[1..]);
      }
    }
  }

  /** A string is its own normal form exactly when it has no query, no variable, no verb, no
      volume id and no trailing slash. */
  lemma FixedIff(p: string)
    ensures NormalizePath(p) == p <==>
            '?' !in p && !HasVariable(p) && !HasVerb(p) && !HasVolid(p) && !HasTrailingSlash(p)
  {
    hide HasVariable, HasVerb, HasVolid, Braces, Verbs, Volids, TrimSlashes;
    var cut := p[..IndexOf(p, '?')];
    var braces := Braces(cut);
    var verbs := Verbs(braces);
    var q := Volids(verbs);
    BracesFixedIff(cut);
    VerbsFixedIff(braces);
    VerbsKeepLength(braces);
    VolidsFixedIff(verbs);
    TrimSlashesIsPrefix(q);
    if '?' !in p {
      IndexOfNone(p, '?');
      assert cut == p;
    } else {
      QueryIsCut(p);
    }
  }

  lemma QueryIsCut(p: string)
    requires '?' in p
    ensures IndexOf(p, '?') < |p|
  {
    assert p == p[..|p|];
  }

  // What the result of a pass cannot contain any more.

  lemma {:induction false} PassesAddNoQuestionMark(p: string)
    requires '?' !in p
    ensures '?' !in Braces(p) && '?' !in Verbs(p) && '?' !in Volids(p)
    decreases |p|
  {
    hide BraceMatch;
    if p != "" {
      PassesAddNoQuestionMark(p[1..]);
      if BraceMatch(p) > 0 {
        PassesAddNoQuestionMark(p[BraceMatch(p)..]);
      }
      if |p| >= 2 {
        PassesAddNoQuestionMark(p[2..]);
      }
      if |p| >= |VOLID| {
        PassesAddNoQuestionMark(p[|VOLID|..]);
      }
    }
  }

  lemma {:induction false} VerbsLeaveNoVerb(p: string)
    ensures !HasVerb(Verbs(p))
    ensures Verbs(p) != "" ==> p != "" && (Verbs(p)[0] == p[0] || Verbs(p)[0] == '{')
    decreases |p|
  {
    hide HasVerb;
    if p == "" {
      NoVerbInShort(p);
    } else if |p| >= 2 && p[0] == '%' && Verb(p[1]) {
      VerbsLeaveNoVerb(p[2..]);
      HoleHasNoVerb(Verbs(p[2..]));
    } else {
      var rest := Verbs(p[1..]);
      VerbsLeaveNoVerb(p[1..]);
      VerbOfTail([p[0]] + rest);
      assert ([p[0]] + rest)[1..] == rest;
    }
  }

  lemma HoleHasNoVerb(rest: string)
    requires !HasVerb(rest)
    ensures !HasVerb("{}" + rest)
  {
    hide HasVerb;
    VerbOfTail("}" + rest);
    VerbOfTail("{}" + rest);
    assert ("}" + rest)[1..] == rest && ("{}" + rest)[1..] == "}" + rest;
  }

  lemma {:induction false} VolidsAddNoVerb(p: string)
    requires !HasVerb(p)
    ensures !HasVerb(Volids(p))
    ensures Volids(p) != "" ==> p != "" && Volids(p)[0] == p[0]
    decreases |p|
  {
    hide HasVerb;
    if p != "" {
      VerbOfTail(p);
      if |p| >= |VOLID| && p[..|VOLID|] == VOLID {
        NoVerbInSuffix(p, |VOLID|);
        VolidsAddNoVerb(p[|VOLID|..]);
        HoleHasNoVerb(Volids(p[|VOLID|..]));
        assert p[..|VOLID|][0] == '{';
      } else {
        var rest := Volids(p[1..]);
        VolidsAddNoVerb(p[1..]);
        VerbOfTail([p[0]] + rest);
        assert ([p[0]] + rest)[1..] == rest;
      }
    }
  }

  lemma NoVerbInSuffix(p: string, k: nat)
    requires k <= |p| && !HasVerb(p)
    ensures !HasVerb(p[k..])
  {
    var t := p[k..];
    forall i | 0 <= i < |t| - 1 ensures !(t[i] == '%' && Verb(t[i + 1])) {
      assert t[i] == p[k + i] && t[i + 1] == p[k + i + 1];
    }
  }

  lemma NoVerbInPrefix(p: string, t: string)
    requires t <= p && !HasVerb(p)
    ensures !HasVerb(t)
  {
    forall i | 0 <= i < |t| - 1 ensures !(t[i] == '%' && Verb(t[i + 1])) {
      assert t[i] == p[i] && t[i + 1] == p[i + 1];
    }
  }

  /** Normalising twice changes something exactly when the first result contains a variable or
      a volume id, both of which a pass can put together from parts it did not match. */
  lemma IdempotentIff(p: string)
    ensures var q := NormalizePath(p);
            NormalizePath(q) == q <==> !HasVariable(q) && !HasVolid(q)
  {
    hide HasVariable, HasVerb, HasVolid, Braces, Verbs, Volids, TrimSlashes;
    var cut := p[..IndexOf(p, '?')];
    var verbs := Verbs(Braces(cut));
    var volids := Volids(verbs);
    PassesAddNoQuestionMark(cut);
    PassesAddNoQuestionMark(Braces(cut));
    PassesAddNoQuestionMark(verbs);
    VerbsLeaveNoVerb(Braces(cut));
    VolidsAddNoVerb(verbs);
    TrimSlashesIsPrefix(volids);
    NoVerbInPrefix(volids, NormalizePath(p));
    FixedIff(NormalizePath(p));
  }

  /** Both kinds occur: chained volume ids, and a verb inside an unclosed brace. */
  lemma NotIdempotentInGeneral()
    ensures NormalizePath(CHAIN) == "/{}:{}/{}" && HasVolid("/{}:{}/{}")
    ensures NormalizePath("/{%s") == "/{{}" && HasVariable("/{{}")
  {
    hide NormalizePath;
    UnclosedBrace();
    ChainedVolid();
    assert "/{}:{}/{}"[1..] == VOLID;
    assert VolidAt("/{}:{}/{}", 1) && VariableAt("/{{}", 1, 3);
  }

  const CHAIN := "/%s:%s/%s:%s/%s"

  lemma ChainedVolid()
    ensures NormalizePath(CHAIN) == "/{}:{}/{}"
  {
    hide Braces, Verbs, Volids, IndexOf;
    CutAtQuery(CHAIN, None);
    assert CHAIN + "" == CHAIN;
    BracesCopy(CHAIN, "");
    PassesKeepSlashes(0);
    VerbsOfChain();
    var rest := ":{}/{}";
    VolidsCopy("/", VOLID + rest);
    VolidsOfVolid(rest);
    VolidsOfOpened();
    assert TrimSlashes("/{}:{}/{}") == "/{}:{}/{}";
  }

  lemma VerbsOfChain()
    ensures Verbs(CHAIN) == "/" + (VOLID + ":{}/{}")
  {
    hide Verbs;
    PassesKeepSlashes(0);
    var tail := [':'] + "%" + ['s'] + (['/'] + "%" + ['s'] + "");
    assert CHAIN == "/%" + ['s'] + ":%" + ['s'] + "/%" + ['s'] + tail;
    VerbsOfVolume('s', 's', 's', tail);
    VerbsOfPair(':', 's', ['/'] + "%" + ['s'] + "");
    VerbsOfPair('/', 's', "");
  }

  lemma VolidsOfOpened()
    ensures Volids(":{}/{}") == ":{}/{}"
  {
    hide Volids;
    PassesKeepSlashes(0);
    VolidsCopy(":", "{}" + ("/" + ("{}" + "")));
    VolidsOfHole("/" + ("{}" + ""));
    VolidsCopy("/", "{}" + "");
    VolidsOfHole("");
    assert ":" + ("{}" + ("/" + ("{}" + ""))) == ":{}/{}";
  }

  lemma BracesOfUnclosed()
    ensures Braces("/{%s") == "/{%s"
  {
    IndexOfNone("%s", '}');
    assert "{%s"[1..] == "%s" && BraceMatch("{%s") == 0;
    hide IndexOf, BraceMatch;
    BracesCopy("%s", "");
    assert "%s" + "" == "%s" && "{" + "%s" == "{%s";
    BracesCopy("/", "{%s");
    assert "/" + "{%s" == "/{%s";
  }

  lemma VerbsOfUnclosed()
    ensures Verbs("/{%s") == "/{{}"
  {
    VerbsOfVerb('s', "");
    VerbsCopy("/{", "%" + ['s'] + "");
    assert "/{" + ("%" + ['s'] + "") == "/{%s" && "/{" + ("{}" + "") == "/{{}";
  }

  lemma VolidsOfUnclosed()
    ensures Volids("/{{}") == "/{{}"
  {
    VolidsCopy("/", "{{}");
    VolidsOfHole("");
    assert "{{}"[1..] == "{}" + "" && "{" + "{}" == "{{}" && "/" + "{{}" == "/{{}";
  }

  lemma UnclosedBrace()
    ensures NormalizePath("/{%s") == "/{{}"
  {
    hide Braces, Verbs, Volids, IndexOf;
    CutAtQuery("/{%s", None);
    assert "/{%s" + "" == "/{%s";
    BracesOfUnclosed();
    VerbsOfUnclosed();
    VolidsOfUnclosed();
    assert TrimSlashes("/{{}") == "/{{}";
  }
}
