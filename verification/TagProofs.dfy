/** What the tag edits mean: exactly when RemoveTag works, and runs of edits as a list of tags. */
module TagProofs {
  import opened Prelude
  import opened GoStrings
  import opened Tags

  function Without(xs: seq<string>, v: string): seq<string> {
    if xs == [] then []
    else (if xs[0] == v then [] else [xs[0]]) + Without(xs[1..], v)
  }

  /** No two neighbours are both v. */
  predicate NoTwins(xs: seq<string>, v: string) {
    forall i | 0 < i < |xs| :: !(xs[i - 1] == v && xs[i] == v)
  }

  /** What the range loop keeps: it never looks at the element that slides into the place of
      a removed one. */
  function Survivors(xs: seq<string>, v: string): seq<string> {
    if xs == [] then []
    else if xs[0] != v then [xs[0]] + Survivors(xs[1..], v)
    else if |xs| == 1 then []
    else [xs[1]] + Survivors(xs[2..], v)
  }

  // ---------------------------------------------------- the loop in place

  lemma {:induction false} NothingToRemove(window: seq<string>, len: nat, v: string, i: nat)
    requires len <= |window| && i <= |window| && v !in window[i..]
    ensures Sweep(window, len, v, i) == Some((window, len))
    decreases |window| - i
  {
    if i < |window| {
      assert window[i] in window[i..];
      NothingToRemove(window, len, v, i + 1);
    }
  }

  /** Once something was removed, a stale copy of the last element waits beyond the slice; if
      it equals v, the loop runs into it and slices out of range. */
  lemma {:induction false} StaleTailPanics(window: seq<string>, len: nat, v: string, i: nat)
    requires len < |window| && i < |window| && window[|window| - 1] == v
    ensures Sweep(window, len, v, i).None?
    decreases |window| - i
  {
    if window[i] != v {
      StaleTailPanics(window, len, v, i + 1);
    } else if i + 1 <= len {
      if i + 1 < |window| {
        StaleTailPanics(Shifted(window, i, len), len - 1, v, i + 1);
      }
    }
  }

  /** The slice and its tail right after an element was cut out. */
  lemma AfterCut(window: seq<string>, len: nat, v: string, i: nat)
    requires i + 1 < len <= |window|
    requires forall j | len - 1 <= j < |window| :: window[j] != v
    ensures var shifted := Shifted(window, i, len);
            && shifted[..i + 1] == window[..i] + [window[i + 1]]
            && shifted[i + 1..len - 1] == window[i + 2..len]
            && forall j | len - 2 <= j < |window| :: shifted[j] != v
  {
    var shifted := Shifted(window, i, len);
    assert shifted[len - 2] == window[len - 1];
    forall j | len - 1 <= j < |window| ensures shifted[j] == window[j] {}
  }

  lemma {:induction false} SweepKeepsSurvivors(window: seq<string>, len: nat, v: string, i: nat)
    requires 1 <= len <= |window| && i <= len
    requires forall j | len - 1 <= j < |window| :: window[j] != v
    ensures var r := Sweep(window, len, v, i);
            r.Some? && r.value.0[..r.value.1] == window[..i] + Survivors(window[i..len], v)
    decreases |window| - i
  {
    hide Shifted;
    var live := window[i..len];
    if i == len {
      NothingToRemove(window, len, v, i);
    } else if window[i] != v {
      SweepKeepsSurvivors(window, len, v, i + 1);
      assert live[1..] == window[i + 1..len];
      assert window[..i + 1] + Survivors(live[1..], v) == window[..i] + ([window[i]] + Survivors(live[1..], v));
    } else {
      AfterCut(window, len, v, i);
      SweepKeepsSurvivors(Shifted(window, i, len), len - 1, v, i + 1);
      assert live[2..] == window[i + 2..len];
      assert (window[..i] + [live[1]]) + Survivors(live[2..], v) == window[..i] + ([live[1]] + Survivors(live[2..], v));
    }
  }

  lemma {:induction false} SurvivorsAreClean(xs: seq<string>, v: string)
    requires xs == [] || xs[|xs| - 1] != v
    ensures v !in Survivors(xs, v) <==> NoTwins(xs, v)
    ensures NoTwins(xs, v) ==> Survivors(xs, v) == Without(xs, v)
  {
    if xs != [] {
      if xs[0] != v {
        SurvivorsAreClean(xs[1..], v);
        TwinsOfTail(xs, v);
      } else {
        SurvivorsAreClean(xs[2..], v);
        TwinsOfTail(xs, v);
        TwinsOfTail(xs[1..], v);
        assert xs[1..][1..] == xs[2..];
      }
    }
  }

  lemma TwinsOfTail(xs: seq<string>, v: string)
    requires xs != []
    ensures NoTwins(xs, v) <==> NoTwins(xs[1..], v) && !(|xs| > 1 && xs[0] == v && xs[1] == v)
  {
    if NoTwins(xs[1..], v) && !(|xs| > 1 && xs[0] == v && xs[1] == v) {
      forall i | 0 < i < |xs| ensures !(xs[i - 1] == v && xs[i] == v) {
        if i > 1 {
          assert xs[1..][i - 2] == xs[i - 1] && xs[1..][i - 1] == xs[i];
        }
      }
    }
    if NoTwins(xs, v) {
      forall i | 0 < i < |xs[1..]| ensures !(xs[1..][i - 1] == v && xs[1..][i] == v) {
        assert xs[i] == xs[1..][i - 1] && xs[i + 1] == xs[1..][i];
      }
    }
  }

  /** The loop up to the first v changes nothing. */
  lemma {:induction false} SweepSkips(xs: seq<string>, v: string, i: nat, k: nat)
    requires i <= k < |xs| && v !in xs[..k]
    ensures Sweep(xs, |xs|, v, i) == Sweep(xs, |xs|, v, k)
    decreases k - i
  {
    if i < k {
      assert xs[i] in xs[..k];
      SweepSkips(xs, v, i + 1, k);
    }
  }

  function IndexOf(xs: seq<string>, v: string): (k: nat)
    requires v in xs
    ensures k < |xs| && xs[k] == v && v !in xs[..k]
  {
    if xs[0] == v then 0 else
      var k := IndexOf(xs[1..], v);
      assert xs[..k + 1] == [xs[0]] + xs[1..][..k];
      1 + k
  }

  /** RemoveTag panics exactly when the value is the last element and occurs before it too. */
  lemma SweepPanicsIff(xs: seq<string>, v: string)
    requires v in xs
    ensures Sweep(xs, |xs|, v, 0).None? <==> xs[|xs| - 1] == v && v in xs[..|xs| - 1]
  {
    var n, k := |xs|, IndexOf(xs, v);
    SweepSkips(xs, v, 0, k);
    if xs[n - 1] != v {
      SweepKeepsSurvivors(xs, n, v, 0);
    } else if k < n - 1 {
      assert v == xs[..n - 1][k];
      StaleTailPanics(Shifted(xs, k, n), n - 1, v, k + 1);
    } else {
      NothingToRemove(Shifted(xs, k, n), n - 1, v, n);
    }
  }

  /** RemoveTag removes the value without a panic exactly when it occurs only at the end, or
      does not end the list and never occurs twice in a row; the rest then keeps its order. */
  lemma SweepRemovesIff(xs: seq<string>, v: string)
    requires v in xs
    ensures var r := Sweep(xs, |xs|, v, 0);
            && (r.Some? && v !in r.value.0[..r.value.1] <==>
                  v !in xs[..|xs| - 1] || (xs[|xs| - 1] != v && NoTwins(xs, v)))
            && (r.Some? && v !in r.value.0[..r.value.1] ==> r.value.0[..r.value.1] == Without(xs, v))
  {
    var n, k := |xs|, IndexOf(xs, v);
    SweepPanicsIff(xs, v);
    if xs[n - 1] != v {
      SweepKeepsSurvivors(xs, n, v, 0);
      assert xs[0..n] == xs;
      SurvivorsAreClean(xs, v);
      assert xs[k] in xs[..n - 1];
    } else if v !in xs[..n - 1] {
      assert forall j | 0 <= j < n - 1 :: xs[..n - 1][j] == xs[j];
      SweepSkips(xs, v, 0, k);
      var shifted := Shifted(xs, k, n);
      NothingToRemove(shifted, n - 1, v, n);
      assert shifted[..n - 1] == xs[..n - 1];
      WithoutOfAppend(xs[..n - 1], xs[n - 1], v);
      assert xs == xs[..n - 1] + [xs[n - 1]];
      WithoutOfFree(xs[..n - 1], v);
    }
  }

  lemma {:induction false} WithoutOfAppend(xs: seq<string>, x: string, v: string)
    ensures Without(xs + [x], v) == Without(xs, v) + (if x == v then [] else [x])
  {
    if xs != [] {
      assert (xs + [x])[1..] == xs[1..] + [x];
      WithoutOfAppend(xs[1..], x, v);
    }
  }

  lemma {:induction false} WithoutOfFree(xs: seq<string>, v: string)
    requires v !in xs
    ensures Without(xs, v) == xs
  {
    if xs != [] {
      WithoutOfFree(xs[1..], v);
    }
  }

  // ----------------------------------------------------------- tag lists

  /** The tags a config string denotes: the non-empty pieces, in order. */
  function TagList(tags: string): seq<string> {
    Without(Split(tags, SEPARATOR), "")
  }

  predicate Distinct(xs: seq<string>) {
    forall i, j | 0 <= i < j < |xs| :: xs[i] != xs[j]
  }

  /** The cache agrees with the string; a nil slice always does. */
  predicate Consistent(c: Config) {
    c.slice.Some? ==> AllFree(c.slice.value, SEPARATOR) && Join(c.slice.value, SEPARATOR) == c.tags
  }

  predicate TagValue(v: string) {
    v != "" && Free(v, SEPARATOR)
  }

  /** A config as UnmarshalJSON leaves it, and one that was built from a string alone. */
  lemma LoadedConfigsAreConsistent(tags: string)
    ensures Consistent(Config(tags, Some(Split(tags, SEPARATOR)))) && Consistent(Config(tags, None))
  {
    PiecesOfSplit(tags, SEPARATOR);
    JoinOfSplit(tags, SEPARATOR);
  }

  lemma NoTags()
    ensures TagList("") == []
  {
    assert Split("", SEPARATOR) == [""] && [""][1..] == [];
  }

  /** The cached slice denotes the same tags as the string. */
  lemma LoadedTagList(c: Config)
    requires Consistent(c)
    ensures AllFree(Loaded(c), SEPARATOR) && Join(Loaded(c), SEPARATOR) == c.tags
    ensures Without(Loaded(c), "") == TagList(c.tags)
  {
    LoadedConfigsAreConsistent(c.tags);
    NoTags();
    if c.slice.Some? && c.slice.value != [] {
      SplitOfJoin(c.slice.value, SEPARATOR);
    }
  }

  /** Storing a slice back: the string it is joined to denotes the slice's non-empty elements. */
  lemma StoredTagList(xs: seq<string>)
    requires AllFree(xs, SEPARATOR)
    ensures TagList(Join(xs, SEPARATOR)) == Without(xs, "")
    ensures Consistent(Config(Join(xs, SEPARATOR), Some(xs)))
  {
    NoTags();
    if xs != [] {
      SplitOfJoin(xs, SEPARATOR);
    }
  }

  lemma {:induction false} WithoutMembers(xs: seq<string>, v: string, x: string)
    ensures x in Without(xs, v) <==> x in xs && x != v
  {
    if xs != [] {
      WithoutMembers(xs[1..], v, x);
    }
  }

  lemma {:induction false} WithoutCommutes(xs: seq<string>, v: string, w: string)
    ensures Without(Without(xs, v), w) == Without(Without(xs, w), v)
  {
    if xs != [] {
      WithoutCommutes(xs[1..], v, w);
      var (vs, ws) := (Without(xs[1..], v), Without(xs[1..], w));
      assert Without(xs, v) == if xs[0] == v then vs else [xs[0]] + vs;
      assert Without(xs, w) == if xs[0] == w then ws else [xs[0]] + ws;
      assert ([xs[0]] + vs)[1..] == vs && ([xs[0]] + ws)[1..] == ws;
      assert Without([xs[0]] + vs, w) == if xs[0] == w then Without(vs, w) else [xs[0]] + Without(vs, w);
      assert Without([xs[0]] + ws, v) == if xs[0] == v then Without(ws, v) else [xs[0]] + Without(ws, v);
    }
  }

  lemma HasDecidesMembership(c: Config, v: string)
    requires Consistent(c) && TagValue(v)
    ensures var (found, c') := Has(c, v);
            && (found <==> v in TagList(c.tags))
            && Consistent(c') && c'.tags == c.tags && (found ==> Loaded(c') == Loaded(c))
            && Loaded(c') == Loaded(c)
  {
    LoadedTagList(c);
    WithoutMembers(Loaded(c), "", v);
    NoTags();
  }

  /** AddTag appends the tag to the list, and is a no-op exactly when it is there already. */
  lemma AddRefinesList(c: Config, v: string)
    requires Consistent(c) && TagValue(v)
    ensures var (r, c') := Add(c, v);
            && Consistent(c') && r != Panicked
            && (r.Noop? <==> v in TagList(c.tags))
            && (r.Posted? ==> r.tags == c'.tags)
            && TagList(c'.tags) == if v in TagList(c.tags) then TagList(c.tags) else TagList(c.tags) + [v]
  {
    HasDecidesMembership(c, v);
    LoadedTagList(c);
    WithoutOfAppend(Loaded(c), v, "");
    StoredTagList(Loaded(c) + [v]);
  }

  /** The value occurs once among the pieces when the tags are distinct. */
  lemma {:induction false} OccursOnce(xs: seq<string>, v: string)
    requires v in xs && v != "" && Distinct(Without(xs, ""))
    ensures v !in xs[..|xs| - 1] || (xs[|xs| - 1] != v && NoTwins(xs, v))
  {
    if xs[0] != v {
      TailIsDistinct(xs);
      OccursOnce(xs[1..], v);
      TwinsOfTail(xs, v);
      assert xs[..|xs| - 1] == [xs[0]] + xs[1..][..|xs| - 2];
    } else {
      FirstIsUnique(xs, v);
      assert forall i | 0 < i < |xs| :: xs[i] == xs[1..][i - 1];
      if |xs| == 1 {
        assert xs[..0] == [];
      }
    }
  }

  lemma FirstIsUnique(xs: seq<string>, v: string)
    requires xs != [] && xs[0] == v && v != "" && Distinct(Without(xs, ""))
    ensures v !in xs[1..]
  {
    WithoutMembers(xs[1..], "", v);
    var all, tail := Without(xs, ""), Without(xs[1..], "");
    forall j | 0 <= j < |tail| ensures tail[j] != all[0] {
      assert all[j + 1] == tail[j];
    }
  }

  lemma TailIsDistinct(xs: seq<string>)
    requires xs != [] && Distinct(Without(xs, ""))
    ensures Distinct(Without(xs[1..], ""))
  {
    var all, tail := Without(xs, ""), Without(xs[1..], "");
    forall i, j | 0 <= i < j < |tail| ensures tail[i] != tail[j] {
      var d := |all| - |tail|;
      assert all[i + d] == tail[i] && all[j + d] == tail[j];
    }
  }

  /** RemoveTag deletes that one tag and keeps the order of the rest; it is a no-op exactly
      when the tag is absent, and never panics on distinct tags. */
  lemma RemoveRefinesList(c: Config, v: string)
    requires Consistent(c) && TagValue(v) && Distinct(TagList(c.tags))
    ensures var (r, c') := Remove(c, v);
            && Consistent(c') && r != Panicked
            && (r.Noop? <==> v !in TagList(c.tags))
            && (r.Posted? ==> r.tags == c'.tags)
            && TagList(c'.tags) == Without(TagList(c.tags), v)
  {
    HasDecidesMembership(c, v);
    LoadedTagList(c);
    var xs := Loaded(c);
    if v in TagList(c.tags) {
      WithoutMembers(xs, "", v);
      OccursOnce(xs, v);
      SweepRemovesIff(xs, v);
      WithoutCommutes(xs, v, "");
      WithoutIsFree(xs, v);
      StoredTagList(Without(xs, v));
    } else {
      WithoutOfFree(TagList(c.tags), v);
    }
  }

  lemma {:induction false} WithoutIsFree(xs: seq<string>, v: string)
    requires AllFree(xs, SEPARATOR)
    ensures AllFree(Without(xs, v), SEPARATOR)
  {
    if xs != [] {
      WithoutIsFree(xs[1..], v);
    }
  }

  // -------------------------------------------------------- runs of edits

  datatype Edit = HasTag(v: string) | AddTag(v: string) | RemoveTag(v: string)

  /** What a call returns: HasTag's boolean, or the outcome of an edit. */
  datatype Answer = Looked(found: bool) | Edited(r: Result)

  function Perform(c: Config, e: Edit): (Answer, Config) {
    match e
    case HasTag(v) => var (found, c') := Has(c, v); (Looked(found), c')
    case AddTag(v) => var (r, c') := Add(c, v); (Edited(r), c')
    case RemoveTag(v) => var (r, c') := Remove(c, v); (Edited(r), c')
  }

  /** The answer on a plain list of tags: ErrNoop, or the list that was sent. */
  datatype ListAnswer = Holds(found: bool) | Unchanged | Sent(tags: seq<string>)

  /** The same edit on a plain list of tags. */
  function OnList(tags: seq<string>, e: Edit): (ListAnswer, seq<string>) {
    match e
    case HasTag(v) => (Holds(v in tags), tags)
    case AddTag(v) => if v in tags then (Unchanged, tags) else (Sent(tags + [v]), tags + [v])
    case RemoveTag(v) => if v in tags then (Sent(Without(tags, v)), Without(tags, v)) else (Unchanged, tags)
  }

  /** What an answer says about the list; a panic says nothing. */
  function Meaning(a: Answer): Option<ListAnswer> {
    match a
    case Looked(found) => Some(Holds(found))
    case Edited(Noop) => Some(Unchanged)
    case Edited(Posted(tags)) => Some(Sent(TagList(tags)))
    case Edited(Panicked) => None
  }

  function RunEdits(c: Config, edits: seq<Edit>): (Config, seq<Option<ListAnswer>>)
    decreases |edits|
  {
    if edits == [] then (c, [])
    else
      var (a, c1) := Perform(c, edits[0]);
      var (c2, rest) := RunEdits(c1, edits[1..]);
      (c2, [Meaning(a)] + rest)
  }

  function RunOnList(tags: seq<string>, edits: seq<Edit>): (seq<string>, seq<Option<ListAnswer>>)
    decreases |edits|
  {
    if edits == [] then (tags, [])
    else
      var (a, tags1) := OnList(tags, edits[0]);
      var (tags2, rest) := RunOnList(tags1, edits[1..]);
      (tags2, [Some(a)] + rest)
  }

  /** ErrNoop is the answer of an edit exactly when it leaves the list as it is. */
  lemma UnchangedIff(tags: seq<string>, e: Edit)
    ensures OnList(tags, e).0.Unchanged? <==> !e.HasTag? && OnList(tags, e).1 == tags
  {
    if e.RemoveTag? {
      WithoutMembers(tags, e.v, e.v);
    }
  }

  lemma {:induction false} DistinctWithout(xs: seq<string>, v: string)
    requires Distinct(xs)
    ensures Distinct(Without(xs, v))
  {
    if xs != [] {
      DistinctWithout(xs[1..], v);
      WithoutMembers(xs[1..], v, xs[0]);
      assert forall j | 0 < j < |xs| :: xs[1..][j - 1] == xs[j];
    }
  }

  lemma EditRefinesList(c: Config, e: Edit)
    requires Consistent(c) && Distinct(TagList(c.tags)) && TagValue(e.v)
    ensures var (a, c') := Perform(c, e);
            var (expected, tags) := OnList(TagList(c.tags), e);
            Consistent(c') && Distinct(tags) && TagList(c'.tags) == tags && Meaning(a) == Some(expected)
  {
    match e
    case HasTag(v) => HasDecidesMembership(c, v);
    case AddTag(v) => AddRefinesList(c, v);
    case RemoveTag(v) =>
      RemoveRefinesList(c, v);
      DistinctWithout(TagList(c.tags), v);
      if v !in TagList(c.tags) {
        WithoutOfFree(TagList(c.tags), v);
      }
  }

  /** Over any run on a config with distinct tags, the tags string denotes exactly the list
      that the same edits make of a plain list, the cache keeps agreeing with the string,
      nothing panics, and every answer is that of the list: HasTag's boolean, ErrNoop, and
      the tags that were sent. */
  lemma {:induction false} RunRefinesList(c: Config, edits: seq<Edit>)
    requires Consistent(c) && Distinct(TagList(c.tags))
    requires forall i | 0 <= i < |edits| :: TagValue(edits[i].v)
    ensures var (c', answers) := RunEdits(c, edits);
            Consistent(c') && (TagList(c'.tags), answers) == RunOnList(TagList(c.tags), edits)
    decreases |edits|
  {
    if edits != [] {
      EditRefinesList(c, edits[0]);
      RunRefinesList(Perform(c, edits[0]).1, edits[1..]);
    }
  }

  // ------------------------------------------------------ repeated tags

  /** On any config, also one that repeats tags, RemoveTag panics exactly when the value ends
      the list of pieces and occurs before that too. */
  lemma RemovePanicsIff(c: Config, v: string)
    requires Consistent(c) && TagValue(v)
    ensures var xs := Split(c.tags, SEPARATOR);
            Remove(c, v).0.Panicked? <==> xs[|xs| - 1] == v && v in xs[..|xs| - 1]
  {
    var xs := Split(c.tags, SEPARATOR);
    HasDecidesMembership(c, v);
    LoadedTagList(c);
    WithoutMembers(xs, "", v);
    if v in TagList(c.tags) {
      LoadedPieces(c);
      SweepPanicsIff(xs, v);
    }
  }

  /** And a tag that is there is removed, all else staying in order, exactly when it occurs only
      at the end, or does not end the list and never occurs twice in a row. */
  lemma RemoveWorksIff(c: Config, v: string)
    requires Consistent(c) && TagValue(v) && v in TagList(c.tags)
    ensures var xs := Split(c.tags, SEPARATOR);
            var (r, c') := Remove(c, v);
            && (r.Posted? && v !in TagList(c'.tags) <==> v !in xs[..|xs| - 1] || (xs[|xs| - 1] != v && NoTwins(xs, v)))
            && (r.Posted? && v !in TagList(c'.tags) ==> TagList(c'.tags) == Without(TagList(c.tags), v))
  {
    hide Remove, Sweep, Split, Without, Join, NoTwins, Consistent, AllFree;
    var xs := Split(c.tags, SEPARATOR);
    RemoveOfPresent(c, v);
    WithoutMembers(xs, "", v);
    SweepRemovesIff(xs, v);
    var swept := Sweep(xs, |xs|, v, 0);
    if swept.Some? {
      var rest := swept.value.0[..swept.value.1];
      WithoutMembers(rest, "", v);
      WithoutCommutes(xs, v, "");
    }
  }

  lemma RemoveOfPresent(c: Config, v: string)
    requires Consistent(c) && TagValue(v) && v in TagList(c.tags)
    ensures var xs := Split(c.tags, SEPARATOR);
            var swept := Sweep(xs, |xs|, v, 0);
            var (r, c') := Remove(c, v);
            && (r.Posted? <==> swept.Some?)
            && (swept.Some? ==> TagList(c'.tags) == Without(swept.value.0[..swept.value.1], ""))
  {
    hide Sweep, Split, Without;
    var xs := Split(c.tags, SEPARATOR);
    HasDecidesMembership(c, v);
    LoadedPieces(c);
    LoadedTagList(c);
    SweepKeepsFree(xs, |xs|, v, 0);
    var swept := Sweep(xs, |xs|, v, 0);
    if swept.Some? {
      StoredTagList(swept.value.0[..swept.value.1]);
    }
  }

  /** A config that holds a tag has its pieces in the cache, or will once it looks. */
  lemma LoadedPieces(c: Config)
    requires Consistent(c) && c.tags != ""
    ensures Loaded(c) == Split(c.tags, SEPARATOR)
  {
    if c.slice.Some? {
      SplitOfJoin(c.slice.value, SEPARATOR);
    }
  }

  lemma {:induction false} SweepKeepsFree(window: seq<string>, len: nat, v: string, i: nat)
    requires len <= |window| && i <= |window| && AllFree(window, SEPARATOR)
    ensures var r := Sweep(window, len, v, i); r.Some? ==> AllFree(r.value.0, SEPARATOR)
    decreases |window| - i
  {
    if i < |window| {
      if window[i] != v {
        SweepKeepsFree(window, len, v, i + 1);
      } else if i + 1 <= len {
        SweepKeepsFree(Shifted(window, i, len), len - 1, v, i + 1);
      }
    }
  }

  /** The config "a;a", which RemoveTag("a") makes panic. */
  lemma RepeatedTagPanics()
    ensures Remove(Config("a;a", None), "a").0 == Panicked
  {
    SplitAtSeparator("a", "a", SEPARATOR);
    SplitOfFree("a", SEPARATOR);
    assert "a" + [SEPARATOR] + "a" == "a;a" && ["a", "a"][..1] == ["a"];
    RemovePanicsIff(Config("a;a", None), "a");
  }

  // ----------------------------------------------------- tags as strings

  /** The string that AddTag posts and keeps: the old one, a semicolon and the tag. That goes for
      an empty string too, unless the cache holds a list without any element. */
  lemma AddedString(c: Config, v: string)
    requires Consistent(c) && TagValue(v) && v !in TagList(c.tags)
    ensures var (r, c') := Add(c, v);
            var tags := if c.slice == Some([]) then v else c.tags + ";" + v;
            r == Posted(tags) && c'.tags == tags
  {
    HasDecidesMembership(c, v);
    LoadedTagList(c);
    JoinOfAppend(Loaded(c), v, SEPARATOR);
  }

  lemma {:induction false} JoinOfAppend(xs: seq<string>, x: string, sep: char)
    ensures Join(xs + [x], sep) == if xs == [] then x else Join(xs, sep) + [sep] + x
  {
    if xs != [] {
      assert (xs + [x])[1..] == xs[1..] + [x];
      JoinOfAppend(xs[1..], x, sep);
      if |xs| > 1 {
        assert xs[0] + [sep] + (Join(xs[1..], sep) + [sep] + x) == (xs[0] + [sep] + Join(xs[1..], sep)) + [sep] + x;
      }
    }
  }

  /** The string that RemoveTag posts and keeps when it works: the other pieces, blank ones
      included, with semicolons between them. */
  lemma RemovedString(c: Config, v: string)
    requires Consistent(c) && TagValue(v) && Distinct(TagList(c.tags)) && v in TagList(c.tags)
    ensures var (r, c') := Remove(c, v);
            var tags := Join(Without(Split(c.tags, ';'), v), ';');
            r == Posted(tags) && c'.tags == tags
  {
    var xs := Split(c.tags, SEPARATOR);
    HasDecidesMembership(c, v);
    LoadedPieces(c);
    WithoutMembers(xs, "", v);
    OccursOnce(xs, v);
    SweepRemovesIff(xs, v);
  }
}
