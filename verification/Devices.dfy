/** Indexed devices: "net10" and its like are routed into one map per prefix. */
module Devices {
  import opened Prelude
  import opened GoStrings

  const VM_PREFIXES: set<string> :=
    {"ide", "scsi", "sata", "virtio", "unused", "net", "numa", "hostpci", "serial", "usb", "parallel", "ipconfig"}
  const CONTAINER_PREFIXES: set<string> := {"dev", "mp", "net", "unused"}

  /** A raw JSON member: a string, null (which decodes to an empty string), or anything else. */
  datatype Value = Text(s: string) | Null | Other

  type Devices = map<string, string>

  /** k is a non-empty digit-free prefix of length i followed by a non-empty run of digits. */
  predicate SplitsAt(k: string, i: nat) {
    0 < i < |k| && (forall j | 0 <= j < i :: !IsDigit(k[j])) && (forall j | i <= j < |k| :: IsDigit(k[j]))
  }

  lemma SplitIsUnique(k: string, i: nat, j: nat)
    requires SplitsAt(k, i) && SplitsAt(k, j)
    ensures i == j
  {
    assert IsDigit(k[i]) && IsDigit(k[j]);
  }

  lemma NoDigitNoSplit(k: string)
    requires forall j | 0 <= j < |k| :: !IsDigit(k[j])
    ensures forall i: nat :: !SplitsAt(k, i)
  {
    forall i: nat ensures !SplitsAt(k, i) {
      assert i < |k| ==> !IsDigit(k[i]);
    }
  }

  /** The prefix of an indexed key; None for every other key. */
  ghost function DevicePrefix(k: string): Option<string> {
    if exists i: nat :: SplitsAt(k, i) then
      var i: nat :| SplitsAt(k, i);
      Some(k[..i])
    else None
  }

  method IndexedDeviceKey(k: string) returns (prefix: string, ok: bool)
    ensures ok <==> exists i: nat :: SplitsAt(k, i)
    ensures ok ==> exists i: nat :: SplitsAt(k, i) && prefix == k[..i]
    ensures (if ok then Some(prefix) else None) == DevicePrefix(k)
  {
    var i := 0;
    while i < |k|
      invariant 0 <= i <= |k| && forall j | 0 <= j < i :: !IsDigit(k[j])
    {
      if IsDigit(k[i]) {
        if i == 0 {
          return "", false;
        }
        var j := i + 1;
        while j < |k|
          invariant i < j <= |k| && forall n | i <= n < j :: IsDigit(k[n])
        {
          if !IsDigit(k[j]) {
            forall n: nat ensures !SplitsAt(k, n) {
              assert !IsDigit(k[j]) && IsDigit(k[i]);
            }
            return "", false;
          }
          j := j + 1;
        }
        assert SplitsAt(k, i);
        forall n: nat | SplitsAt(k, n) ensures n == i {
          SplitIsUnique(k, i, n);
        }
        return k[..i], true;
      }
      i := i + 1;
    }
    NoDigitNoSplit(k);
    return "", false;
  }

  /** The entries of raw, among the keys in done, that belong to prefix p. */
  ghost function Routed(raw: map<string, Value>, done: set<string>, p: string): Devices {
    map k | k in raw && k in done && DevicePrefix(k) == Some(p) && !raw[k].Other? ::
      if raw[k].Text? then raw[k].s else ""
  }

  /** A nil map reads as an empty one. */
  function Get(maps: map<string, Devices>, p: string): Devices {
    if p in maps then maps[p] else map[]
  }

  /** The per-prefix maps of a VirtualMachineConfig or ContainerConfig; a prefix that is not
      in maps has a nil map. */
  class DeviceConfig {
    const prefixes: set<string>
    var maps: map<string, Devices>

    constructor (prefixes: set<string>)
      ensures this.prefixes == prefixes && maps == map[]
    {
      this.prefixes, maps := prefixes, map[];
    }

    /** The routing loop of UnmarshalJSON, over the raw object in any order. */
    method Route(raw: map<string, Value>)
      modifies this
      ensures forall p :: Get(maps, p) == Get(old(maps), p) + (if p in prefixes then Routed(raw, raw.Keys, p) else map[])
      ensures forall p :: p in maps <==> p in old(maps) || (p in prefixes && Routed(raw, raw.Keys, p) != map[])
    {
      hide Routed, DevicePrefix;
      ghost var before := maps;
      NothingRouted(raw);
      var rest := raw.Keys;
      while rest != {}
        invariant rest <= raw.Keys
        invariant forall p :: Get(maps, p) == Get(before, p) + (if p in prefixes then Routed(raw, raw.Keys - rest, p) else map[])
        invariant forall p :: p in maps <==> p in before || (p in prefixes && Routed(raw, raw.Keys - rest, p) != map[])
        decreases rest
      {
        var k :| k in rest;
        ghost var done := raw.Keys - rest;
        rest := rest - {k};
        assert raw.Keys - rest == done + {k};
        RouteOneMore(raw, done, k);
        var prefix, ok := IndexedDeviceKey(k);
        if !ok || prefix !in prefixes || raw[k].Other? {
          continue;
        }
        var s := if raw[k].Text? then raw[k].s else "";
        MergePut(Get(before, prefix), Routed(raw, done, prefix), k, s);
        maps := maps[prefix := Get(maps, prefix)[k := s]];
      }
      assert raw.Keys - rest == raw.Keys;
    }
  }

  lemma NothingRouted(raw: map<string, Value>)
    ensures forall p :: Routed(raw, raw.Keys - raw.Keys, p) == map[]
  {}

  lemma MergePut(a: Devices, b: Devices, k: string, s: string)
    ensures a + b[k := s] == (a + b)[k := s] && b[k := s] != map[]
  {
    assert k in b[k := s];
  }

  lemma RouteOneMore(raw: map<string, Value>, done: set<string>, k: string)
    requires k in raw && k !in done
    ensures forall p :: Routed(raw, done + {k}, p) ==
              if DevicePrefix(k) == Some(p) && !raw[k].Other?
              then Routed(raw, done, p)[k := if raw[k].Text? then raw[k].s else ""]
              else Routed(raw, done, p)
  {}

  // ---------------------------------------------------------- properties

  /** Every key of a map has the map's prefix. */
  ghost predicate Sorted(maps: map<string, Devices>) {
    forall p, k | p in maps && k in maps[p] :: DevicePrefix(k) == Some(p)
  }

  /** What a fresh config holds after decoding: each key with a known prefix and a string (or
      null) value is in the map of its prefix and in no other, and nothing else is anywhere. */
  lemma DecodedIntoOneMap(raw: map<string, Value>, prefixes: set<string>, maps: map<string, Devices>, p: string, k: string)
    requires forall q :: Get(maps, q) == if q in prefixes then Routed(raw, raw.Keys, q) else map[]
    ensures Sorted(maps)
    ensures k in Get(maps, p) <==> k in raw && !raw[k].Other? && p in prefixes && DevicePrefix(k) == Some(p)
    ensures k in Get(maps, p) ==> forall q | q != p :: k !in Get(maps, q)
  {
    hide DevicePrefix;
    assert forall q | q in maps :: maps[q] == Get(maps, q);
  }

  /** The entries of m whose keys are not in rest. */
  ghost function Part(m: Devices, rest: set<string>): Devices {
    map k | k in m && k !in rest :: m[k]
  }

  lemma PartBounds(m: Devices)
    ensures Part(m, m.Keys) == map[] && Part(m, {}) == m
  {}

  lemma PartMore(before: Devices, m: Devices, rest: set<string>, k: string)
    requires k in rest && rest <= m.Keys
    ensures before + Part(m, rest - {k}) == (before + Part(m, rest))[k := m[k]]
  {}

  /** MergeDisks: every disk of the four buses in one map. */
  method MergeDisks(ides: Devices, scsis: Devices, satas: Devices, virtios: Devices) returns (merged: Devices)
    ensures merged == ides + scsis + satas + virtios
  {
    hide Part;
    merged := map[];
    var buses := [ides, scsis, satas, virtios];
    for n := 0 to |buses|
      invariant merged == Merged(buses[..n])
    {
      var m := buses[n];
      ghost var before := merged;
      PartBounds(m);
      var rest := m.Keys;
      while rest != {}
        invariant rest <= m.Keys
        invariant merged == before + Part(m, rest)
        decreases rest
      {
        var k :| k in rest;
        PartMore(before, m, rest, k);
        rest := rest - {k};
        merged := merged[k := m[k]];
      }
      assert buses[..n + 1][..n] == buses[..n];
    }
    assert buses[..4] == buses;
    MergedOfFour(ides, scsis, satas, virtios);
  }

  function Merged(buses: seq<Devices>): Devices {
    if buses == [] then map[] else Merged(buses[..|buses| - 1]) + buses[|buses| - 1]
  }

  lemma MergedOfFour(a: Devices, b: Devices, c: Devices, d: Devices)
    ensures Merged([a, b, c, d]) == a + b + c + d
  {
    assert [a, b, c, d][..3] == [a, b, c] && [a, b, c][..2] == [a, b] && [a, b][..1] == [a];
    assert [a][..0] == [] && Merged([a]) == Merged([]) + a == a;
    assert Merged([a, b]) == a + b && Merged([a, b, c]) == a + b + c;
  }

  /** On the four maps of a decoded config MergeDisks is a disjoint union: every disk keeps its
      entry, nothing is added, and the size is the sum of the four sizes. */
  lemma MergeIsDisjoint(maps: map<string, Devices>)
    requires Sorted(maps)
    ensures var (a, b, c, d) := (Get(maps, "ide"), Get(maps, "scsi"), Get(maps, "sata"), Get(maps, "virtio"));
            var merged := a + b + c + d;
            && |merged| == |a| + |b| + |c| + |d|
            && merged.Keys == a.Keys + b.Keys + c.Keys + d.Keys
            && (forall k | k in a :: merged[k] == a[k]) && (forall k | k in b :: merged[k] == b[k])
            && (forall k | k in c :: merged[k] == c[k]) && (forall k | k in d :: merged[k] == d[k])
  {
    hide DevicePrefix;
    assert "ide"[0] == 'i' && "scsi"[1] == 'c' && "sata"[1] == 'a' && "virtio"[0] == 'v';
    var (a, b, c, d) := (Get(maps, "ide"), Get(maps, "scsi"), Get(maps, "sata"), Get(maps, "virtio"));
    DifferentPrefixes(maps, "ide", "scsi");
    DifferentPrefixes(maps, "ide", "sata");
    DifferentPrefixes(maps, "ide", "virtio");
    DifferentPrefixes(maps, "scsi", "sata");
    DifferentPrefixes(maps, "scsi", "virtio");
    DifferentPrefixes(maps, "sata", "virtio");
    hide Get, Sorted;
    DisjointUnion(a, b);
    DisjointUnion(a + b, c);
    DisjointUnion(a + b + c, d);
  }

  lemma DifferentPrefixes(maps: map<string, Devices>, p: string, q: string)
    requires Sorted(maps) && p != q
    ensures Get(maps, p).Keys !! Get(maps, q).Keys
  {
    hide DevicePrefix;
    assert forall k | k in Get(maps, p) :: DevicePrefix(k) == Some(p);
    assert forall k | k in Get(maps, q) :: DevicePrefix(k) == Some(q);
  }

  lemma DisjointUnion(m: Devices, n: Devices)
    requires m.Keys !! n.Keys
    ensures |m + n| == |m| + |n| && (m + n).Keys == m.Keys + n.Keys
    ensures forall k | k in m :: (m + n)[k] == m[k]
    ensures forall k | k in n :: (m + n)[k] == n[k]
  {
    assert |(m + n).Keys| == |m.Keys| + |n.Keys|;
  }

  /** In a fresh config a member named by a prefix that the config knows and a decimal index is
      found under its own name in the map of that prefix, with its string, or empty for null. */
  lemma NamedDeviceIsFound(raw: map<string, Value>, prefixes: set<string>, maps: map<string, Devices>, p: string, index: string)
    requires forall q :: Get(maps, q) == if q in prefixes then Routed(raw, raw.Keys, q) else map[]
    requires p in prefixes && p != "" && (forall i | 0 <= i < |p| :: p[i] !in "0123456789")
    requires index != "" && forall i | 0 <= i < |index| :: index[i] in "0123456789"
    requires p + index in raw && !raw[p + index].Other?
    ensures p + index in Get(maps, p)
    ensures Get(maps, p)[p + index] == if raw[p + index].Text? then raw[p + index].s else ""
  {
    var k := p + index;
    forall j | 0 <= j < |p| ensures !IsDigit(k[j]) {
      DigitsAreTen(p[j]);
    }
    forall j | |p| <= j < |k| ensures IsDigit(k[j]) {
      DigitsAreTen(index[j - |p|]);
    }
    assert SplitsAt(k, |p|);
    forall i: nat | SplitsAt(k, i) ensures i == |p| {
      SplitIsUnique(k, i, |p|);
    }
    assert k[..|p|] == p;
    assert DevicePrefix(k) == Some(p);
  }

  /** The prefixes of the two kinds of config are digit-free, so every one can be found. */
  lemma PrefixesAreDigitFree(p: string)
    requires p in VM_PREFIXES + CONTAINER_PREFIXES
    ensures p != "" && forall i | 0 <= i < |p| :: p[i] !in "0123456789"
  {
    forall i | 0 <= i < |p| ensures p[i] !in "0123456789" {
      DigitsAreTen(p[i]);
    }
  }
}
