/** Tags: a ";"-separated string with a cached slice that is edited in place. */
module Tags {
  import opened Prelude
  import opened GoStrings

  const SEPARATOR: char := ';'

  /** Tags and TagsSlice of a config; None is a nil slice. */
  datatype Config = Config(tags: string, slice: Option<seq<string>>)

  /** The outcome of AddTag and RemoveTag: ErrNoop, a request carrying the new tags string,
      or a slice bound out of range. */
  datatype Result = Noop | Posted(tags: string) | Panicked

  // ------------------------------------------------------- specification

  /** The slice as HasTag and the edits see it. */
  function Loaded(c: Config): seq<string> {
    if c.slice.Some? then c.slice.value else Split(c.tags, SEPARATOR)
  }

  function Has(c: Config, value: string): (bool, Config) {
    if c.tags == "" then (false, c)
    else (value in Loaded(c), c.(slice := Some(Loaded(c))))
  }

  function Add(c: Config, value: string): (Result, Config) {
    var (found, c1) := Has(c, value);
    if found then (Noop, c1)
    else
      var slice := Loaded(c1) + [value];
      var tags := Join(slice, SEPARATOR);
      (Posted(tags), Config(tags, Some(slice)))
  }

  /** The range loop of RemoveTag. window is the part of the backing array that the loop
      header captured, len the current length of the slice: a match at i shifts
      window[i + 1..len] one place down and leaves the rest of the window as it was. */
  function Sweep(window: seq<string>, len: nat, value: string, i: nat): (r: Option<(seq<string>, nat)>)
    requires len <= |window| && i <= |window|
    ensures r.Some? ==> r.value.1 <= |r.value.0| == |window|
    decreases |window| - i
  {
    if i == |window| then Some((window, len))
    else if window[i] != value then Sweep(window, len, value, i + 1)
    else if i + 1 > len then None
    else Sweep(Shifted(window, i, len), len - 1, value, i + 1)
  }

  function Shifted(window: seq<string>, i: nat, len: nat): (r: seq<string>)
    requires i < len <= |window|
    ensures |r| == |window|
  {
    window[..i] + window[i + 1..len] + window[len - 1..]
  }

  function Remove(c: Config, value: string): (Result, Config) {
    var (found, c1) := Has(c, value);
    if !found then (Noop, c1)
    else
      var slice := Loaded(c1);
      var swept := Sweep(slice, |slice|, value, 0);
      if swept.None? then (Panicked, c1)
      else
        var rest := swept.value.0[..swept.value.1];
        var tags := Join(rest, SEPARATOR);
        (Posted(tags), Config(tags, Some(rest)))
  }

  // ------------------------------------------------------ implementation

  /** The tag fields of a VirtualMachineConfig or ContainerConfig: Tags, and TagsSlice as a
      backing array with a length (present is false for a nil slice). */
  class TagConfig {
    var tags: string
    var present: bool
    var buf: array<string>
    var len: nat

    ghost predicate Valid()
      reads this
    {
      len <= buf.Length
    }

    ghost function State(): Config
      reads this, buf
      requires Valid()
    {
      Config(tags, if present then Some(buf[..len]) else None)
    }

    constructor (tags: string)
      ensures Valid() && State() == Config(tags, None) && fresh(buf)
    {
      this.tags, present, len := tags, false, 0;
      buf := new string[0];
    }

    method SplitTags()
      requires Valid()
      modifies this`present, this`buf, this`len
      ensures Valid() && fresh(buf)
      ensures State() == Config(tags, Some(Split(tags, SEPARATOR)))
    {
      var parts := Split(tags, SEPARATOR);
      buf := new string[|parts|](i requires 0 <= i < |parts| => parts[i]);
      len, present := |parts|, true;
      assert buf[..len] == parts;
    }

    method HasTag(value: string) returns (found: bool)
      requires Valid()
      modifies this`present, this`buf, this`len
      ensures Valid() && (buf == old(buf) || fresh(buf))
      ensures (found, State()) == Has(old(State()), value)
      ensures found ==> present
    {
      if tags == "" {
        return false;
      }
      if !present {
        SplitTags();
      }
      var i := 0;
      while i < len
        invariant i <= len && value !in buf[..i]
      {
        if buf[i] == value {
          assert value in buf[..len];
          return true;
        }
        i := i + 1;
      }
      found := false;
    }

    /** Go's append of one element: in place when the capacity allows it. */
    method Append(value: string)
      requires Valid() && present
      modifies this`buf, this`len, buf
      ensures Valid() && (buf == old(buf) || fresh(buf))
      ensures State() == Config(tags, Some(old(buf[..len]) + [value]))
    {
      if len == buf.Length {
        var grown := new string[2 * len + 1];
        forall i | 0 <= i < len {
          grown[i] := buf[i];
        }
        assert grown[..len] == buf[..len];
        buf := grown;
      }
      buf[len] := value;
      len := len + 1;
      assert buf[..len] == old(buf[..len]) + [value];
    }

    method AddTag(value: string) returns (r: Result)
      requires Valid()
      modifies this, buf
      ensures Valid() && (buf == old(buf) || fresh(buf))
      ensures (r, State()) == Add(old(State()), value)
    {
      var found := HasTag(value);
      if found {
        return Noop;
      }
      if !present {
        SplitTags();
      }
      Append(value);
      tags := Join(buf[..len], SEPARATOR);
      r := Posted(tags);
    }

    /** append(s[:i], s[i+1:]...) in place, seen through a window of n elements. */
    method CutAt(i: nat, n: nat)
      requires Valid() && i < len <= n <= buf.Length
      modifies this`len, buf
      ensures len == old(len) - 1 && buf[..n] == Shifted(old(buf[..n]), i, old(len))
    {
      forall j | i <= j < len - 1 {
        buf[j] := buf[j + 1];
      }
      len := len - 1;
    }

    method RemoveTag(value: string) returns (r: Result)
      requires Valid()
      modifies this, buf
      ensures Valid() && (buf == old(buf) || fresh(buf))
      ensures r == Remove(old(State()), value).0
      ensures !r.Panicked? ==> State() == Remove(old(State()), value).1
    {
      hide Shifted;
      var found := HasTag(value);
      if !found {
        return Noop;
      }
      ghost var slice := buf[..len];
      assert slice == Loaded(State());
      var n := len;
      for i := 0 to n
        invariant len <= n <= buf.Length && present && tags == old(tags)
        invariant buf == old(buf) || fresh(buf)
        invariant Sweep(buf[..n], len, value, i) == Sweep(slice, n, value, 0)
      {
        assert buf[..n][i] == buf[i];
        if buf[i] == value {
          if i + 1 > len {
            return Panicked;
          }
          CutAt(i, n);
        }
      }
      assert buf[..n][..len] == buf[..len];
      tags := Join(buf[..len], SEPARATOR);
      r := Posted(tags);
    }
  }

  /** A Container mirrors its config's tags string into its own Tags field. */
  class Container {
    const config: TagConfig
    var tags: string

    constructor (config: TagConfig)
      ensures this.config == config && tags == config.tags
    {
      this.config, tags := config, config.tags;
    }

    method AddTag(value: string) returns (r: Result)
      requires config.Valid()
      modifies this, config, config.buf
      ensures config.Valid() && (r, config.State()) == Add(old(config.State()), value)
      ensures tags == if r.Noop? then old(tags) else config.tags
    {
      r := config.AddTag(value);
      if r.Posted? {
        tags := config.tags;
      }
    }

    method RemoveTag(value: string) returns (r: Result)
      requires config.Valid()
      modifies this, config, config.buf
      ensures config.Valid() && r == Remove(old(config.State()), value).0
      ensures !r.Panicked? ==> config.State() == Remove(old(config.State()), value).1
      ensures tags == if r.Posted? then config.tags else old(tags)
    {
      r := config.RemoveTag(value);
      if r.Posted? {
        tags := config.tags;
      }
    }
  }
}
