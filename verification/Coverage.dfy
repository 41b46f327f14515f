/** Coverage accounting: schema endpoints against the call sites found in the library. */
module Coverage {
  import opened Prelude
  import GoStrings
  import PathTemplates

  datatype Endpoint = Endpoint(verb: string, path: string)

  /** A call site; its path is already normalised. */
  datatype Call = Call(verb: string, path: string)

  datatype AreaRow = AreaRow(area: string, total: nat, covered: nat, excluded: nat, missed: int)

  datatype Report =
    | StaleExclusion(key: string)
    | Report(
        covered: set<string>,
        matched: nat,
        missed: nat,
        unmatched: seq<Call>,
        excludedHits: nat,
        uncovered: seq<Endpoint>,
        rows: seq<AreaRow>)

  function Lower(s: string): (r: string)
    ensures |r| == |s|
  {
    if s == "" then ""
    else [if 'A' <= s[0] <= 'Z' then s[0] - 'A' + 'a' else s[0]] + Lower(s[1..])
  }

  function Key(verb: string, path: string): string {
    Lower(verb) + " " + path
  }

  function AreaOf(path: string): string {
    var trimmed := if path != "" && path[0] == '/' then path[1..] else path;
    var parts := GoStrings.Split(trimmed, '/');
    if parts[0] == "" then "(root)"
    else if parts[0] == "nodes" && |parts| >= 3 then "nodes/" + parts[2]
    else parts[0]
  }

  function EntryKey(e: Endpoint): string {
    Key(e.verb, PathTemplates.NormalizePath(e.path))
  }

  function EntryArea(e: Endpoint): string {
    AreaOf(PathTemplates.NormalizePath(e.path))
  }

  function Front<T>(xs: seq<T>): seq<T>
    requires xs != []
  {
    xs[..|xs| - 1]
  }

  function Last<T>(xs: seq<T>): T
    requires xs != []
  {
    xs[|xs| - 1]
  }

  /** Growing a prefix by one element. */
  lemma Extend<T>(xs: seq<T>, n: nat)
    requires n < |xs|
    ensures Front(xs[..n + 1]) == xs[..n] && Last(xs[..n + 1]) == xs[n]
    ensures n + 1 == |xs| ==> xs[..n + 1] == xs
  {}

  // ------------------------------------------------------- specification

  function SchemaKeys(schema: seq<Endpoint>): set<string> {
    if schema == [] then {} else SchemaKeys(Front(schema)) + {EntryKey(Last(schema))}
  }

  function AreaKeys(schema: seq<Endpoint>, area: string): set<string> {
    if schema == [] then {}
    else AreaKeys(Front(schema), area) + (if EntryArea(Last(schema)) == area then {EntryKey(Last(schema))} else {})
  }

  function Areas(schema: seq<Endpoint>): set<string> {
    if schema == [] then {} else Areas(Front(schema)) + {EntryArea(Last(schema))}
  }

  function CallKey(c: Call): string {
    Key(c.verb, c.path)
  }

  /** The keys of the calls that the schema knows. */
  function Covered(calls: seq<Call>, keys: set<string>): set<string> {
    if calls == [] then {}
    else Covered(Front(calls), keys) + (if CallKey(Last(calls)) in keys then {CallKey(Last(calls))} else {})
  }

  function Unmatched(calls: seq<Call>, keys: set<string>): seq<Call> {
    if calls == [] then []
    else Unmatched(Front(calls), keys) + (if CallKey(Last(calls)) in keys then [] else [Last(calls)])
  }

  datatype Class = IsCovered | IsExcluded | IsUncovered

  function ClassOf(e: Endpoint, covered: set<string>, excluded: set<string>): Class {
    if EntryKey(e) in covered then IsCovered
    else if EntryKey(e) in excluded then IsExcluded
    else IsUncovered
  }

  /** The schema entries of one class, in order. */
  function OfClass(schema: seq<Endpoint>, covered: set<string>, excluded: set<string>, c: Class): seq<Endpoint> {
    if schema == [] then []
    else OfClass(Front(schema), covered, excluded, c)
         + (if ClassOf(Last(schema), covered, excluded) == c then [Last(schema)] else [])
  }

  function RowFor(area: string, keys: set<string>, covered: set<string>, excluded: set<string>): AreaRow {
    var hit, skipped := keys * covered, (keys - covered) * excluded;
    AreaRow(area, |keys|, |hit|, |skipped|, |keys| - |hit| - |skipped|)
  }

  /** One row per area, in whatever order the map is iterated. */
  ghost predicate RowsFor(rows: seq<AreaRow>, schema: seq<Endpoint>, covered: set<string>, excluded: set<string>) {
    && (forall i, j | 0 <= i < j < |rows| :: rows[i].area != rows[j].area)
    && RowAreas(rows) == Areas(schema)
    && (forall row | row in rows :: row == RowFor(row.area, AreaKeys(schema, row.area), covered, excluded))
  }

  function RowAreas(rows: seq<AreaRow>): (areas: set<string>)
    ensures forall row | row in rows :: row.area in areas
  {
    if rows == [] then {}
    else
      assert rows == Front(rows) + [Last(rows)];
      RowAreas(Front(rows)) + {Last(rows).area}
  }

  // ------------------------------------------------------ implementation

  method IndexSchema(schema: seq<Endpoint>) returns (keys: set<string>, byArea: map<string, set<string>>)
    ensures keys == SchemaKeys(schema) && byArea.Keys == Areas(schema)
    ensures forall a | a in byArea :: byArea[a] == AreaKeys(schema, a)
  {
    keys, byArea := {}, map[];
    for n := 0 to |schema|
      invariant keys == SchemaKeys(schema[..n]) && byArea.Keys == Areas(schema[..n])
      invariant forall a | a in byArea :: byArea[a] == AreaKeys(schema[..n], a)
    {
      var k, a := EntryKey(schema[n]), EntryArea(schema[n]);
      Extend(schema, n);
      KeysOfUnknownArea(schema[..n], a);
      keys := keys + {k};
      byArea := byArea[a := (if a in byArea then byArea[a] else {}) + {k}];
    }
    assert schema[..|schema|] == schema;
  }

  method MatchCalls(calls: seq<Call>, keys: set<string>)
    returns (covered: set<string>, matched: nat, missed: nat, unmatched: seq<Call>)
    ensures covered == Covered(calls, keys) && unmatched == Unmatched(calls, keys)
    ensures matched == |calls| - |unmatched| && missed == |unmatched|
  {
    covered, matched, missed, unmatched := {}, 0, 0, [];
    for n := 0 to |calls|
      invariant covered == Covered(calls[..n], keys) && unmatched == Unmatched(calls[..n], keys)
      invariant matched == n - |unmatched| && missed == |unmatched|
    {
      var k := CallKey(calls[n]);
      Extend(calls, n);
      if k in keys {
        matched := matched + 1;
        covered := covered + {k};
      } else {
        missed := missed + 1;
        unmatched := unmatched + [calls[n]];
      }
    }
    assert calls[..|calls|] == calls;
  }

  method ListUncovered(schema: seq<Endpoint>, covered: set<string>, excluded: set<string>)
    returns (uncovered: seq<Endpoint>, excludedHits: nat)
    ensures uncovered == OfClass(schema, covered, excluded, IsUncovered)
    ensures excludedHits == |OfClass(schema, covered, excluded, IsExcluded)|
  {
    uncovered, excludedHits := [], 0;
    for n := 0 to |schema|
      invariant uncovered == OfClass(schema[..n], covered, excluded, IsUncovered)
      invariant excludedHits == |OfClass(schema[..n], covered, excluded, IsExcluded)|
    {
      Extend(schema, n);
      var k := EntryKey(schema[n]);
      if k in covered {
        continue;
      }
      if k in excluded {
        excludedHits := excludedHits + 1;
        continue;
      }
      uncovered := uncovered + [schema[n]];
    }
    assert schema[..|schema|] == schema;
  }

  /** The inner loop of the area table, over the keys of one area in any order. */
  method CountArea(area: string, keys: set<string>, covered: set<string>, excluded: set<string>) returns (row: AreaRow)
    ensures row == RowFor(area, keys, covered, excluded)
  {
    var cov, exc := 0, 0;
    var rest := keys;
    ghost var hit: set<string>, skipped: set<string> := {}, {};
    while rest != {}
      invariant rest <= keys && cov == |hit| && exc == |skipped|
      invariant forall k :: k in hit <==> k in keys && k !in rest && k in covered
      invariant forall k :: k in skipped <==> k in keys && k !in rest && k !in covered && k in excluded
      decreases rest
    {
      var k :| k in rest;
      rest := rest - {k};
      if k in covered {
        cov, hit := cov + 1, hit + {k};
        continue;
      }
      if k in excluded {
        exc, skipped := exc + 1, skipped + {k};
      }
    }
    assert hit == keys * covered && skipped == (keys - covered) * excluded;
    row := AreaRow(area, |keys|, cov, exc, |keys| - cov - exc);
  }

  method Tabulate(schema: seq<Endpoint>, byArea: map<string, set<string>>, covered: set<string>, excluded: set<string>)
    returns (rows: seq<AreaRow>)
    requires byArea.Keys == Areas(schema) && forall a | a in byArea :: byArea[a] == AreaKeys(schema, a)
    ensures RowsFor(rows, schema, covered, excluded)
  {
    hide RowFor, AreaKeys, Areas;
    rows := [];
    var rest := byArea.Keys;
    while rest != {}
      invariant rest <= byArea.Keys && RowAreas(rows) == byArea.Keys - rest
      invariant forall i, j | 0 <= i < j < |rows| :: rows[i].area != rows[j].area
      invariant forall row | row in rows :: row == RowFor(row.area, AreaKeys(schema, row.area), covered, excluded)
      decreases rest
    {
      var area :| area in rest;
      rest := rest - {area};
      var row := CountArea(area, byArea[area], covered, excluded);
      RowIsNamed(area, byArea[area], covered, excluded);
      Extend(rows + [row], |rows|);
      assert (rows + [row])[..|rows|] == rows && forall r | r in rows :: r.area != area;
      rows := rows + [row];
    }
  }

  lemma RowIsNamed(area: string, keys: set<string>, covered: set<string>, excluded: set<string>)
    ensures RowFor(area, keys, covered, excluded).area == area
  {}

  method CoverageReport(schema: seq<Endpoint>, calls: seq<Call>, exclusions: set<string>) returns (r: Report)
    ensures r.StaleExclusion? <==> !(exclusions <= SchemaKeys(schema))
    ensures r.StaleExclusion? ==> r.key in exclusions - SchemaKeys(schema)
    ensures r.Report? ==>
              && r.covered == Covered(calls, SchemaKeys(schema))
              && r.unmatched == Unmatched(calls, SchemaKeys(schema))
              && r.missed == |r.unmatched| && r.matched + r.missed == |calls|
              && r.uncovered == OfClass(schema, r.covered, exclusions, IsUncovered)
              && r.excludedHits == |OfClass(schema, r.covered, exclusions, IsExcluded)|
              && RowsFor(r.rows, schema, r.covered, exclusions)
  {
    var keys, byArea := IndexSchema(schema);
    var rest := exclusions;
    while rest != {}
      invariant rest <= exclusions && exclusions - rest <= keys
      decreases rest
    {
      var k :| k in rest;
      if k !in keys {
        return StaleExclusion(k);
      }
      rest := rest - {k};
    }
    var covered, matched, missed, unmatched := MatchCalls(calls, keys);
    var uncovered, excludedHits := ListUncovered(schema, covered, exclusions);
    var rows := Tabulate(schema, byArea, covered, exclusions);
    r := Report(covered, matched, missed, unmatched, excludedHits, uncovered, rows);
  }

  lemma {:induction false} KeysOfUnknownArea(schema: seq<Endpoint>, area: string)
    ensures area !in Areas(schema) ==> AreaKeys(schema, area) == {}
  {
    if schema != [] {
      KeysOfUnknownArea(Front(schema), area);
    }
  }

  // ---------------------------------------------------------- properties

  /** Every schema entry is exactly one of covered, excluded and uncovered. */
  lemma {:induction false} EntriesAreConserved(schema: seq<Endpoint>, covered: set<string>, excluded: set<string>)
    ensures |OfClass(schema, covered, excluded, IsCovered)| + |OfClass(schema, covered, excluded, IsExcluded)|
            + |OfClass(schema, covered, excluded, IsUncovered)| == |schema|
  {
    if schema != [] {
      EntriesAreConserved(Front(schema), covered, excluded);
    }
  }

  /** The number of covered keys never exceeds the denominator it is reported against. */
  lemma {:induction false} CoveredFitsConsidered(schema: seq<Endpoint>, covered: set<string>, excluded: set<string>)
    requires covered <= SchemaKeys(schema)
    ensures |covered| <= |OfClass(schema, covered, excluded, IsCovered)|
            <= |schema| - |OfClass(schema, covered, excluded, IsExcluded)|
  {
    EntriesAreConserved(schema, covered, excluded);
    KeysAmongEntries(schema, covered, excluded);
    assert covered * SchemaKeys(schema) == covered;
  }

  lemma {:induction false} KeysAmongEntries(schema: seq<Endpoint>, covered: set<string>, excluded: set<string>)
    ensures |covered * SchemaKeys(schema)| <= |OfClass(schema, covered, excluded, IsCovered)|
  {
    hide EntryKey;
    if schema == [] {
      assert covered * SchemaKeys(schema) == {};
    } else {
      KeysAmongEntries(Front(schema), covered, excluded);
      var before, k := covered * SchemaKeys(Front(schema)), EntryKey(Last(schema));
      assert covered * SchemaKeys(schema) == if k in covered then before + {k} else before;
    }
  }

  /** HTTP verbs contain no space, so a key determines its path. */
  predicate PlainVerbs(schema: seq<Endpoint>) {
    forall i | 0 <= i < |schema| :: ' ' !in schema[i].verb
  }

  lemma {:induction false} LowerKeepsSpaces(s: string)
    requires ' ' !in s
    ensures ' ' !in Lower(s)
  {
    if s != "" {
      LowerKeepsSpaces(s[1..]);
    }
  }

  lemma KeyDeterminesPath(v1: string, p1: string, v2: string, p2: string)
    requires ' ' !in v1 && ' ' !in v2 && Key(v1, p1) == Key(v2, p2)
    ensures p1 == p2
  {
    LowerKeepsSpaces(v1);
    LowerKeepsSpaces(v2);
    assert Key(v1, p1) == Lower(v1) + [' '] + p1 && Key(v2, p2) == Lower(v2) + [' '] + p2;
    PathTemplates.IndexOfFirst(Lower(v1), ' ', p1);
    PathTemplates.IndexOfFirst(Lower(v2), ' ', p2);
    assert Key(v1, p1)[|Lower(v1)| + 1..] == p1 && Key(v2, p2)[|Lower(v2)| + 1..] == p2;
  }

  lemma {:induction false} KeyHasEntry(schema: seq<Endpoint>, area: string, k: string) returns (i: nat)
    requires k in AreaKeys(schema, area)
    ensures i < |schema| && EntryArea(schema[i]) == area && EntryKey(schema[i]) == k
  {
    hide EntryArea, EntryKey;
    if EntryArea(Last(schema)) == area && EntryKey(Last(schema)) == k {
      i := |schema| - 1;
    } else {
      i := KeyHasEntry(Front(schema), area, k);
    }
  }

  lemma {:induction false} AreaOfKey(schema: seq<Endpoint>, k: string) returns (a: string)
    requires k in SchemaKeys(schema)
    ensures a in Areas(schema) && k in AreaKeys(schema, a)
  {
    hide EntryArea, EntryKey;
    if k == EntryKey(Last(schema)) {
      a := EntryArea(Last(schema));
    } else {
      a := AreaOfKey(Front(schema), k);
    }
  }

  lemma {:induction false} AreaKeysAreKeys(schema: seq<Endpoint>, a: string)
    ensures AreaKeys(schema, a) <= SchemaKeys(schema)
  {
    if schema != [] {
      AreaKeysAreKeys(Front(schema), a);
    }
  }

  ghost predicate InSomeArea(schema: seq<Endpoint>, k: string) {
    exists a :: a in Areas(schema) && k in AreaKeys(schema, a)
  }

  /** The areas partition the key set: no key is in two areas, and the keys are exactly those
      of the areas. */
  lemma AreasPartitionKeys(schema: seq<Endpoint>)
    requires PlainVerbs(schema)
    ensures forall a, b | a != b :: AreaKeys(schema, a) !! AreaKeys(schema, b)
    ensures forall a :: AreaKeys(schema, a) <= SchemaKeys(schema)
    ensures forall k | k in SchemaKeys(schema) :: InSomeArea(schema, k)
  {
    hide EntryArea, EntryKey, AreaKeys, SchemaKeys, Areas;
    forall a, b | a != b ensures AreaKeys(schema, a) !! AreaKeys(schema, b) {
      forall k | k in AreaKeys(schema, a) ensures k !in AreaKeys(schema, b) {
        if k in AreaKeys(schema, b) {
          SameArea(schema, a, b, k);
        }
      }
    }
    forall a ensures AreaKeys(schema, a) <= SchemaKeys(schema) {
      AreaKeysAreKeys(schema, a);
    }
    forall k | k in SchemaKeys(schema) ensures InSomeArea(schema, k) {
      var a := AreaOfKey(schema, k);
    }
  }

  lemma SameArea(schema: seq<Endpoint>, a: string, b: string, k: string)
    requires PlainVerbs(schema) && k in AreaKeys(schema, a) && k in AreaKeys(schema, b)
    ensures a == b
  {
    hide EntryArea, EntryKey, AreaKeys;
    var i := KeyHasEntry(schema, a, k);
    var j := KeyHasEntry(schema, b, k);
    SameKeySameArea(schema[i], schema[j]);
  }

  lemma SameKeySameArea(e: Endpoint, f: Endpoint)
    requires ' ' !in e.verb && ' ' !in f.verb && EntryKey(e) == EntryKey(f)
    ensures EntryArea(e) == EntryArea(f)
  {
    KeyDeterminesPath(e.verb, PathTemplates.NormalizePath(e.path), f.verb, PathTemplates.NormalizePath(f.path));
  }

  /** In every row covered + excluded + missing = total, with none of them negative. */
  lemma RowBalances(area: string, keys: set<string>, covered: set<string>, excluded: set<string>)
    ensures var row := RowFor(area, keys, covered, excluded);
            && row.covered + row.excluded + row.missed == row.total
            && 0 <= row.missed && row.covered <= row.total - row.excluded
  {
    var hit, skipped := keys * covered, (keys - covered) * excluded;
    assert |hit + skipped| == |hit| + |skipped|;
    Subset(hit + skipped, keys);
  }

  lemma {:induction false} Subset(a: set<string>, b: set<string>)
    requires a <= b
    ensures |a| <= |b|
  {
    assert a + (b - a) == b;
  }

  function SumCovered(rows: seq<AreaRow>): nat {
    if rows == [] then 0 else SumCovered(Front(rows)) + Last(rows).covered
  }

  function KeysOfRows(schema: seq<Endpoint>, rows: seq<AreaRow>): set<string> {
    if rows == [] then {} else KeysOfRows(schema, Front(rows)) + AreaKeys(schema, Last(rows).area)
  }

  lemma {:induction false} RowsHoldAreas(schema: seq<Endpoint>, rows: seq<AreaRow>, k: string)
    ensures k in KeysOfRows(schema, rows) <==> exists a :: a in RowAreas(rows) && k in AreaKeys(schema, a)
  {
    hide AreaKeys;
    if rows != [] {
      RowsHoldAreas(schema, Front(rows), k);
      if k in AreaKeys(schema, Last(rows).area) {
        assert Last(rows).area in RowAreas(rows);
      } else if k in KeysOfRows(schema, Front(rows)) {
        var a :| a in RowAreas(Front(rows)) && k in AreaKeys(schema, a);
        assert a in RowAreas(rows);
      }
    }
  }

  /** In whatever order the areas come, their covered counts add up to the covered keys. */
  lemma AreaCountsAddUp(schema: seq<Endpoint>, rows: seq<AreaRow>, covered: set<string>, excluded: set<string>)
    requires PlainVerbs(schema) && covered <= SchemaKeys(schema) && RowsFor(rows, schema, covered, excluded)
    ensures SumCovered(rows) == |covered|
  {
    hide AreaKeys, SchemaKeys, Areas, RowFor, KeysOfRows, SumCovered;
    AreasPartitionKeys(schema);
    forall k | k in covered ensures k in KeysOfRows(schema, rows) {
      assert InSomeArea(schema, k);
      var a :| a in Areas(schema) && k in AreaKeys(schema, a);
      RowsHoldAreas(schema, rows, k);
      assert a in RowAreas(rows);
    }
    assert covered * KeysOfRows(schema, rows) == covered;
    SumIsDisjoint(schema, rows, covered, excluded);
  }

  lemma {:induction false} SumIsDisjoint(schema: seq<Endpoint>, rows: seq<AreaRow>, covered: set<string>, excluded: set<string>)
    requires forall a, b | a != b :: AreaKeys(schema, a) !! AreaKeys(schema, b)
    requires forall i, j | 0 <= i < j < |rows| :: rows[i].area != rows[j].area
    requires forall row | row in rows :: row == RowFor(row.area, AreaKeys(schema, row.area), covered, excluded)
    ensures SumCovered(rows) == |covered * KeysOfRows(schema, rows)|
  {
    hide AreaKeys;
    if rows == [] {
      assert covered * KeysOfRows(schema, rows) == {};
    } else {
      var rest, row := Front(rows), Last(rows);
      assert forall r | r in rest :: r in rows;
      assert row in rows;
      SumIsDisjoint(schema, rest, covered, excluded);
      RestIsDisjoint(schema, rest, row.area);
      DisjointCount(covered, KeysOfRows(schema, rest), AreaKeys(schema, row.area));
    }
  }

  lemma DisjointCount(c: set<string>, a: set<string>, b: set<string>)
    requires a !! b
    ensures |c * (a + b)| == |c * a| + |b * c|
  {
    assert c * (a + b) == c * a + b * c && (c * a) !! (b * c);
  }

  lemma {:induction false} RestIsDisjoint(schema: seq<Endpoint>, rows: seq<AreaRow>, area: string)
    requires forall a, b | a != b :: AreaKeys(schema, a) !! AreaKeys(schema, b)
    requires forall i | 0 <= i < |rows| :: rows[i].area != area
    ensures KeysOfRows(schema, rows) !! AreaKeys(schema, area)
  {
    hide AreaKeys;
    if rows != [] {
      RestIsDisjoint(schema, Front(rows), area);
      assert AreaKeys(schema, Last(rows).area) !! AreaKeys(schema, area);
    }
  }

  /** Only schema keys count as covered. */
  lemma {:induction false} CoveredIsKnown(calls: seq<Call>, keys: set<string>)
    ensures Covered(calls, keys) <= keys
  {
    if calls != [] {
      CoveredIsKnown(Front(calls), keys);
    }
  }

  /** A Go call counts for a schema endpoint exactly when the verbs agree up to case and the
      two path templates have the same shape, whatever variable names, format verbs, trailing
      slashes and query strings they are written with. */
  lemma CallMatchesIff(callVerb: string, t: seq<PathTemplates.Segment>, slashes: nat, query: Option<string>,
                       schemaVerb: string, u: seq<PathTemplates.Segment>)
    requires ' ' !in callVerb && ' ' !in schemaVerb
    requires PathTemplates.Template(t) && PathTemplates.Template(u)
    ensures CallKey(Call(callVerb, PathTemplates.NormalizePath(PathTemplates.Go(t, slashes, query))))
            == EntryKey(Endpoint(schemaVerb, PathTemplates.Schema(u)))
            <==> Lower(callVerb) == Lower(schemaVerb) && PathTemplates.Shapes(t) == PathTemplates.Shapes(u)
  {
    PathTemplates.GoNormalizes(t, slashes, query);
    PathTemplates.SchemaNormalizes(u);
    PathTemplates.CanonDeterminesShape(t, u);
    var (p, q) := (PathTemplates.Canon(t), PathTemplates.Canon(u));
    if Key(callVerb, p) == Key(schemaVerb, q) {
      KeyDeterminesPath(callVerb, p, schemaVerb, q);
      assert Key(callVerb, p)[..|Lower(callVerb)|] == Lower(callVerb);
      assert Key(schemaVerb, q)[..|Lower(schemaVerb)|] == Lower(schemaVerb);
    }
  }

  lemma {:induction false} CoveredIff(calls: seq<Call>, keys: set<string>, k: string)
    ensures k in Covered(calls, keys) <==> k in keys && exists c :: c in calls && CallKey(c) == k
  {
    hide CallKey;
    if calls != [] {
      CoveredIff(Front(calls), keys, k);
      assert calls == Front(calls) + [Last(calls)];
      if c :| c in calls && CallKey(c) == k {
        assert c == Last(calls) || c in Front(calls);
      }
    }
  }

  lemma {:induction false} EntryHasKey(schema: seq<Endpoint>, e: Endpoint)
    requires e in schema
    ensures EntryKey(e) in SchemaKeys(schema)
  {
    hide EntryKey;
    assert schema == Front(schema) + [Last(schema)];
    if e != Last(schema) {
      EntryHasKey(Front(schema), e);
    }
  }

  /** A call as it is written in the library. */
  datatype GoCall = GoCall(verb: string, template: seq<PathTemplates.Segment>, slashes: nat, query: Option<string>)

  /** A call as the scan of the sources extracts it. */
  function Extracted(g: GoCall): Call {
    Call(g.verb, PathTemplates.NormalizePath(PathTemplates.Go(g.template, g.slashes, g.query)))
  }

  function ExtractedAll(gs: seq<GoCall>): seq<Call> {
    seq(|gs|, i requires 0 <= i < |gs| => Extracted(gs[i]))
  }

  /** The report as a whole: a schema endpoint is covered exactly when some call in the library
      has its verb, up to case, and a path of its shape. */
  lemma EndpointCoveredIff(schema: seq<Endpoint>, gs: seq<GoCall>, verb: string, u: seq<PathTemplates.Segment>)
    requires forall g | g in gs :: ' ' !in g.verb && PathTemplates.Template(g.template)
    requires ' ' !in verb && PathTemplates.Template(u) && Endpoint(verb, PathTemplates.Schema(u)) in schema
    ensures EntryKey(Endpoint(verb, PathTemplates.Schema(u))) in Covered(ExtractedAll(gs), SchemaKeys(schema))
            <==> exists g :: g in gs && Lower(g.verb) == Lower(verb) && PathTemplates.Shapes(g.template) == PathTemplates.Shapes(u)
  {
    hide CallKey, EntryKey, Extracted, SchemaKeys, Covered;
    var e, calls := Endpoint(verb, PathTemplates.Schema(u)), ExtractedAll(gs);
    EntryHasKey(schema, e);
    CoveredIff(calls, SchemaKeys(schema), EntryKey(e));
    forall g | g in gs
      ensures CallKey(Extracted(g)) == EntryKey(e) <==>
              Lower(g.verb) == Lower(verb) && PathTemplates.Shapes(g.template) == PathTemplates.Shapes(u)
    {
      CallKeyOf(g);
      CallMatchesIff(g.verb, g.template, g.slashes, g.query, verb, u);
    }
    if g :| g in gs && CallKey(Extracted(g)) == EntryKey(e) {
      var i :| 0 <= i < |gs| && gs[i] == g;
      assert calls[i] == Extracted(g) && calls[i] in calls;
    }
    if c :| c in calls && CallKey(c) == EntryKey(e) {
      var i :| 0 <= i < |calls| && calls[i] == c;
      assert gs[i] in gs && Extracted(gs[i]) == c;
    }
  }

  lemma CallKeyOf(g: GoCall)
    ensures Extracted(g) == Call(g.verb, PathTemplates.NormalizePath(PathTemplates.Go(g.template, g.slashes, g.query)))
  {}

  lemma CountOfSnoc<T>(xs: seq<T>, x: T)
    requires xs != []
    ensures multiset(xs)[x] == multiset(Front(xs))[x] + if Last(xs) == x then 1 else 0
  {
    assert xs == Front(xs) + [Last(xs)];
  }

  lemma CountOfAppend<T>(xs: seq<T>, y: T, x: T)
    ensures multiset(xs + [y])[x] == multiset(xs)[x] + if y == x then 1 else 0
  {}

  lemma {:induction false} ClassShare(schema: seq<Endpoint>, covered: set<string>, excluded: set<string>, c: Class, e: Endpoint)
    ensures multiset(OfClass(schema, covered, excluded, c))[e] ==
            if ClassOf(e, covered, excluded) == c then multiset(schema)[e] else 0
  {
    hide ClassOf;
    if schema != [] {
      var front := OfClass(Front(schema), covered, excluded, c);
      ClassShare(Front(schema), covered, excluded, c, e);
      CountOfSnoc(schema, e);
      CountOfAppend(front, Last(schema), e);
      assert front + [] == front;
    }
  }

  /** The entries listed under a class are exactly those of that class, each as often as the
      schema has it: covered ones, excluded ones that are not covered, and the others. */
  lemma ClassMembers(schema: seq<Endpoint>, covered: set<string>, excluded: set<string>, e: Endpoint)
    ensures var (n, k) := (multiset(schema)[e], EntryKey(e));
            && multiset(OfClass(schema, covered, excluded, IsCovered))[e] == (if k in covered then n else 0)
            && multiset(OfClass(schema, covered, excluded, IsExcluded))[e] == (if k !in covered && k in excluded then n else 0)
            && multiset(OfClass(schema, covered, excluded, IsUncovered))[e] == (if k !in covered && k !in excluded then n else 0)
  {
    hide OfClass, EntryKey;
    ClassShare(schema, covered, excluded, IsCovered, e);
    ClassShare(schema, covered, excluded, IsExcluded, e);
    ClassShare(schema, covered, excluded, IsUncovered, e);
  }

  /** The calls reported as unmatched are exactly those the schema does not know, each as often
      as it was found. */
  lemma {:induction false} UnmatchedIff(calls: seq<Call>, keys: set<string>, c: Call)
    ensures multiset(Unmatched(calls, keys))[c] == if CallKey(c) in keys then 0 else multiset(calls)[c]
  {
    hide CallKey;
    if calls != [] {
      var front := Unmatched(Front(calls), keys);
      UnmatchedIff(Front(calls), keys, c);
      CountOfSnoc(calls, c);
      CountOfAppend(front, Last(calls), c);
      assert front + [] == front;
    }
  }

  /** Lower moves the codes 65 to 90, the letters A to Z, up by 32, and no other. */
  lemma {:induction false} LowerAt(s: string, i: nat)
    requires i < |s|
    ensures |Lower(s)| == |s|
    ensures Lower(s)[i] as int == s[i] as int + if 65 <= s[i] as int <= 90 then 32 else 0
  {
    if i > 0 {
      LowerAt(s[1..], i - 1);
    }
  }

  /** The area of a path with the given segments: the third one below /nodes, else the first;
      the root has an area of its own. */
  lemma AreaOfPath(parts: seq<string>)
    requires parts != [] && GoStrings.AllFree(parts, '/')
    ensures AreaOf("/" + GoStrings.Join(parts, '/')) ==
            if parts[0] == "" then "(root)"
            else if parts[0] == "nodes" && |parts| > 2 then "nodes/" + parts[2]
            else parts[0]
  {
    hide GoStrings.Split, GoStrings.Join;
    var path := GoStrings.Join(parts, '/');
    assert ("/" + path)[1..] == path;
    GoStrings.SplitOfJoin(parts, '/');
  }

  function SumTotal(rows: seq<AreaRow>): nat {
    if rows == [] then 0 else SumTotal(Front(rows)) + Last(rows).total
  }

  function SumExcluded(rows: seq<AreaRow>): nat {
    if rows == [] then 0 else SumExcluded(Front(rows)) + Last(rows).excluded
  }

  /** So do their totals and their excluded counts; an excluded key that is covered counts as
      covered. With RowBalances the missing counts add up as well. */
  lemma AreaTotalsAddUp(schema: seq<Endpoint>, rows: seq<AreaRow>, covered: set<string>, excluded: set<string>)
    requires PlainVerbs(schema) && RowsFor(rows, schema, covered, excluded)
    ensures SumTotal(rows) == |SchemaKeys(schema)|
    ensures SumExcluded(rows) == |SchemaKeys(schema) * (excluded - covered)|
  {
    hide AreaKeys, SchemaKeys, Areas, RowFor, KeysOfRows, SumTotal, SumExcluded;
    AreasPartitionKeys(schema);
    var keys := SchemaKeys(schema);
    forall k ensures k in KeysOfRows(schema, rows) <==> k in keys {
      RowsHoldAreas(schema, rows, k);
      if k in keys {
        assert InSomeArea(schema, k);
        var a :| a in Areas(schema) && k in AreaKeys(schema, a);
        assert a in RowAreas(rows);
      }
    }
    assert KeysOfRows(schema, rows) == keys;
    assert keys * (excluded - covered) == (excluded - covered) * keys;
    TotalsAreDisjoint(schema, rows, covered, excluded);
    ExcludedAreDisjoint(schema, rows, covered, excluded);
  }

  lemma {:induction false} TotalsAreDisjoint(schema: seq<Endpoint>, rows: seq<AreaRow>, covered: set<string>, excluded: set<string>)
    requires forall a, b | a != b :: AreaKeys(schema, a) !! AreaKeys(schema, b)
    requires forall i, j | 0 <= i < j < |rows| :: rows[i].area != rows[j].area
    requires forall row | row in rows :: row == RowFor(row.area, AreaKeys(schema, row.area), covered, excluded)
    ensures SumTotal(rows) == |KeysOfRows(schema, rows)|
  {
    hide AreaKeys, RowFor;
    if rows != [] {
      var rest, row := Front(rows), Last(rows);
      assert forall r | r in rest :: r in rows;
      assert row in rows;
      TotalsAreDisjoint(schema, rest, covered, excluded);
      RestIsDisjoint(schema, rest, row.area);
      RowCounts(row.area, AreaKeys(schema, row.area), covered, excluded);
      assert KeysOfRows(schema, rows) == KeysOfRows(schema, rest) + AreaKeys(schema, row.area);
    }
  }

  lemma RowCounts(area: string, keys: set<string>, covered: set<string>, excluded: set<string>)
    ensures var row := RowFor(area, keys, covered, excluded);
            row.total == |keys| && row.excluded == |(excluded - covered) * keys|
  {
    assert (keys - covered) * excluded == (excluded - covered) * keys;
  }

  lemma {:induction false} ExcludedAreDisjoint(schema: seq<Endpoint>, rows: seq<AreaRow>, covered: set<string>, excluded: set<string>)
    requires forall a, b | a != b :: AreaKeys(schema, a) !! AreaKeys(schema, b)
    requires forall i, j | 0 <= i < j < |rows| :: rows[i].area != rows[j].area
    requires forall row | row in rows :: row == RowFor(row.area, AreaKeys(schema, row.area), covered, excluded)
    ensures SumExcluded(rows) == |(excluded - covered) * KeysOfRows(schema, rows)|
  {
    hide AreaKeys, RowFor;
    if rows == [] {
      assert (excluded - covered) * KeysOfRows(schema, rows) == {};
    } else {
      var rest, row := Front(rows), Last(rows);
      var mine := AreaKeys(schema, row.area);
      assert forall r | r in rest :: r in rows;
      assert row in rows;
      ExcludedAreDisjoint(schema, rest, covered, excluded);
      RestIsDisjoint(schema, rest, row.area);
      DisjointCount(excluded - covered, KeysOfRows(schema, rest), mine);
      RowCounts(row.area, mine, covered, excluded);
      assert mine * (excluded - covered) == (excluded - covered) * mine;
    }
  }
}
