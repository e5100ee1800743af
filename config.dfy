/** The `package.metadata.grub-bootimage` table of Cargo.toml and how it is
    read into a `Config` once the file has been parsed into a TOML value. */
module BootConfig {
  import opened Wrappers
  import opened Toml

  const TWO_32: int := 0x1_0000_0000

  type U32 = n: int | 0 <= n < 0x1_0000_0000
  type I32 = n: int | -0x8000_0000 <= n < 0x8000_0000

  /** Rust's `n as u32` on an `i64`: keep the low 32 bits. The result is the
      one 32-bit unsigned value congruent to `n`. */
  function WrapU32(n: I64): (r: U32)
    ensures (n - r) % TWO_32 == 0
    ensures 0 <= n < TWO_32 ==> r == n
  {
    n % TWO_32
  }

  /** Rust's `n as i32` on an `i64`: the low 32 bits read as two's complement.
      The result is the one 32-bit signed value congruent to `n`. */
  function WrapI32(n: I64): (r: I32)
    ensures (n - r) % TWO_32 == 0
    ensures -0x8000_0000 <= n < 0x8000_0000 ==> r == n
  {
    var low := n % TWO_32;
    if low < 0x8000_0000 then low else low - TWO_32
  }

  /** Any unsigned 32-bit value congruent to `n` is the one `n as u32` gives. */
  lemma WrapU32Unique(n: I64, r: U32)
    requires (n - r) % TWO_32 == 0
    ensures r == WrapU32(n)
  {
  }

  /** Any signed 32-bit value congruent to `n` is the one `n as i32` gives. */
  lemma WrapI32Unique(n: I64, r: I32)
    requires (n - r) % TWO_32 == 0
    ensures r == WrapI32(n)
  {
  }

  /** The fields of the `grub-bootimage` table. */
  datatype Config = Config(
    runArgs: Option<seq<string>>,
    testArgs: Option<seq<string>>,
    testSuccessExitCode: Option<I32>,
    testTimeout: U32)

  /** `Config::new`: no extra arguments, no success exit code, 300 seconds. */
  function DefaultConfig(): (c: Config)
    ensures c.runArgs == None && c.testArgs == None
    ensures c.testSuccessExitCode == None && c.testTimeout == 300
  {
    Config(None, None, None, 300)
  }

  datatype ConfigError =
    | ConfigInvalid(metadata: Value)           // the entry is not a table
    | UnexpectedKey(key: string, value: Value) // unknown key, or a known key with a wrong type
    | NotListOfStrings                         // an argument list holds a non-string

  const RUN_ARGS: string := "run-args"
  const TEST_ARGS: string := "test-args"
  const TEST_TIMEOUT: string := "test-timeout"
  const TEST_SUCCESS_EXIT_CODE: string := "test-success-exit-code"

  predicate AllStrings(items: seq<Value>) {
    forall i :: 0 <= i < |items| ==> items[i].String?
  }

  /** The strings of an all-string array, in order. */
  function Strings(items: seq<Value>): (r: seq<string>)
    requires AllStrings(items)
    ensures |r| == |items|
    ensures forall i :: 0 <= i < |items| ==> r[i] == items[i].str
  {
    if items == [] then [] else [items[0].str] + Strings(items[1..])
  }

  /** `parse_config`: copy the strings of an array into a fresh list, failing
      at the first element that is not a string. */
  method ParseConfig(items: seq<Value>) returns (r: Result<seq<string>, ConfigError>)
    ensures r.Ok? <==> AllStrings(items)
    ensures r.Ok? ==> |r.value| == |items| && forall i :: 0 <= i < |items| ==> r.value[i] == items[i].str
    ensures r.Err? ==> r.error == NotListOfStrings
  {
    var parsed: seq<string> := [];
    var i := 0;
    while i < |items|
      invariant 0 <= i <= |items|
      invariant AllStrings(items[..i])
      invariant |parsed| == i && forall k :: 0 <= k < i ==> parsed[k] == items[k].str
    {
      if !items[i].String? {
        return Err(NotListOfStrings);
      }
      parsed := parsed + [items[i].str];
      i := i + 1;
    }
    return Ok(parsed);
  }

  /** The entries the reader accepts: each known key with a value of its type. */
  predicate EntryValid(key: string, v: Value) {
    || (key == RUN_ARGS && v.Array? && AllStrings(v.items))
    || (key == TEST_ARGS && v.Array? && AllStrings(v.items))
    || (key == TEST_TIMEOUT && v.Integer?)
    || (key == TEST_SUCCESS_EXIT_CODE && v.Integer?)
  }

  /** Every entry of the table is accepted. */
  predicate AllValid(entries: Entries) {
    forall i :: 0 <= i < |entries| ==> EntryValid(entries[i].0, entries[i].1)
  }

  /** The error an entry the reader does not accept produces. */
  function EntryError(key: string, v: Value): ConfigError {
    if (key == RUN_ARGS || key == TEST_ARGS) && v.Array? then NotListOfStrings
    else UnexpectedKey(key, v)
  }

  /** One step of the key loop of `read_config`. */
  function ApplyEntry(c: Config, key: string, v: Value): (r: Result<Config, ConfigError>)
    ensures r.Ok? <==> EntryValid(key, v)
    ensures r.Err? ==> r.error == EntryError(key, v)
    ensures r.Ok? && key != RUN_ARGS ==> r.value.runArgs == c.runArgs
    ensures r.Ok? && key != TEST_ARGS ==> r.value.testArgs == c.testArgs
    ensures r.Ok? && key != TEST_TIMEOUT ==> r.value.testTimeout == c.testTimeout
    ensures r.Ok? && key != TEST_SUCCESS_EXIT_CODE ==> r.value.testSuccessExitCode == c.testSuccessExitCode
    ensures r.Ok? && key == RUN_ARGS ==> r.value.runArgs == Some(Strings(v.items))
    ensures r.Ok? && key == TEST_ARGS ==> r.value.testArgs == Some(Strings(v.items))
    ensures r.Ok? && key == TEST_TIMEOUT ==> r.value.testTimeout == WrapU32(v.n)
    ensures r.Ok? && key == TEST_SUCCESS_EXIT_CODE ==> r.value.testSuccessExitCode == Some(WrapI32(v.n))
  {
    if key == RUN_ARGS && v.Array? then
      if AllStrings(v.items) then Ok(c.(runArgs := Some(Strings(v.items)))) else Err(NotListOfStrings)
    else if key == TEST_ARGS && v.Array? then
      if AllStrings(v.items) then Ok(c.(testArgs := Some(Strings(v.items)))) else Err(NotListOfStrings)
    else if key == TEST_TIMEOUT && v.Integer? then
      Ok(c.(testTimeout := WrapU32(v.n)))
    else if key == TEST_SUCCESS_EXIT_CODE && v.Integer? then
      Ok(c.(testSuccessExitCode := Some(WrapI32(v.n))))
    else
      Err(UnexpectedKey(key, v))
  }

  /** The key loop of `read_config`, from configuration `c`, over `entries`
      in order, stopping at the first error. */
  function ApplyEntries(c: Config, entries: Entries): (r: Result<Config, ConfigError>)
    ensures r.Err? ==> exists i :: 0 <= i < |entries| && !EntryValid(entries[i].0, entries[i].1)
                                   && r.error == EntryError(entries[i].0, entries[i].1)
    decreases |entries|
  {
    if entries == [] then Ok(c)
    else
      match ApplyEntry(c, entries[0].0, entries[0].1)
      case Err(e) => Err(e)
      case Ok(c') => ApplyEntries(c', entries[1..])
  }

  /** The key loop succeeds exactly when every entry is one it accepts. */
  lemma {:induction false} ApplyEntriesOkIff(c: Config, entries: Entries)
    ensures ApplyEntries(c, entries).Ok? <==> AllValid(entries)
    decreases |entries|
  {
    if entries != [] {
      var r := ApplyEntry(c, entries[0].0, entries[0].1);
      if r.Ok? {
        ApplyEntriesOkIff(r.value, entries[1..]);
        assert forall i :: 1 <= i < |entries| ==> entries[i] == entries[1..][i - 1];
      }
    }
  }

  /** A failing key loop reports the first entry it does not accept. */
  lemma {:induction false} ApplyEntriesFirstError(c: Config, entries: Entries, i: nat)
    requires i < |entries| && !EntryValid(entries[i].0, entries[i].1)
    requires forall j :: 0 <= j < i ==> EntryValid(entries[j].0, entries[j].1)
    ensures ApplyEntries(c, entries) == Err(EntryError(entries[i].0, entries[i].1))
    decreases |entries|
  {
    if i > 0 {
      var r := ApplyEntry(c, entries[0].0, entries[0].1);
      assert EntryValid(entries[0].0, entries[0].1);
      ApplyEntriesFirstError(r.value, entries[1..], i - 1);
    }
  }

  /** The new value of an argument-list field: the strings of the entry's
      array when the key is present, the old value otherwise. */
  function ArgsField(old_: Option<seq<string>>, found: Option<Value>): Option<seq<string>> {
    if found.Some? && found.value.Array? && AllStrings(found.value.items) then Some(Strings(found.value.items))
    else old_
  }

  /** What the key loop leaves in each field, stated without the loop: every
      field is decided by a lookup of its own key alone. */
  function Settled(c: Config, entries: Entries): Config {
    var timeout := Find(entries, TEST_TIMEOUT);
    var exitCode := Find(entries, TEST_SUCCESS_EXIT_CODE);
    Config(
      ArgsField(c.runArgs, Find(entries, RUN_ARGS)),
      ArgsField(c.testArgs, Find(entries, TEST_ARGS)),
      if exitCode.Some? && exitCode.value.Integer? then Some(WrapI32(exitCode.value.n)) else c.testSuccessExitCode,
      if timeout.Some? && timeout.value.Integer? then WrapU32(timeout.value.n) else c.testTimeout)
  }

  /** A successful key loop over a table with distinct keys sets each field from
      its own key and leaves the fields of absent keys as they were. */
  lemma {:induction false} ApplyEntriesSettles(c: Config, entries: Entries)
    requires DistinctKeys(entries)
    requires ApplyEntries(c, entries).Ok?
    ensures ApplyEntries(c, entries).value == Settled(c, entries)
    decreases |entries|
  {
    if entries != [] {
      var (key, v) := entries[0];
      var rest := entries[1..];
      var c' := ApplyEntry(c, key, v).value;
      assert DistinctKeys(rest);
      ApplyEntriesSettles(c', rest);
      assert Find(rest, key).None?;
      assert forall k :: k != key ==> Find(entries, k) == Find(rest, k);
      assert Find(entries, key) == Some(v);
    }
  }

  /** The result of the key loop does not depend on the order in which the
      table is walked: success does not, and neither does the configuration
      produced. (Which error is reported first may.) */
  lemma TableOrderIndependent(c: Config, entries1: Entries, entries2: Entries)
    requires DistinctKeys(entries1) && DistinctKeys(entries2)
    requires multiset(entries1) == multiset(entries2)
    ensures ApplyEntries(c, entries1).Ok? <==> ApplyEntries(c, entries2).Ok?
    ensures ApplyEntries(c, entries1).Ok? ==> ApplyEntries(c, entries1) == ApplyEntries(c, entries2)
  {
    ApplyEntriesOkIff(c, entries1);
    ApplyEntriesOkIff(c, entries2);
    AllValidIgnoresOrder(entries1, entries2);
    AllValidIgnoresOrder(entries2, entries1);
    if ApplyEntries(c, entries1).Ok? {
      ApplyEntriesSettles(c, entries1);
      ApplyEntriesSettles(c, entries2);
      FindIgnoresOrder(entries1, entries2, RUN_ARGS);
      FindIgnoresOrder(entries1, entries2, TEST_ARGS);
      FindIgnoresOrder(entries1, entries2, TEST_TIMEOUT);
      FindIgnoresOrder(entries1, entries2, TEST_SUCCESS_EXIT_CODE);
    }
  }

  /** Whether every entry is accepted depends only on which entries there are. */
  lemma AllValidIgnoresOrder(entries1: Entries, entries2: Entries)
    requires multiset(entries1) == multiset(entries2)
    ensures AllValid(entries1) ==> AllValid(entries2)
  {
    if AllValid(entries1) {
      forall j | 0 <= j < |entries2| ensures EntryValid(entries2[j].0, entries2[j].1) {
        assert entries2[j] in multiset(entries1);
        var i :| 0 <= i < |entries1| && entries1[i] == entries2[j];
      }
    }
  }

  /** The `package.metadata.grub-bootimage` entry, looked up one table at a time;
      a missing key or a non-table on the way means no entry. */
  function Metadata(content: Value): (r: Option<Value>)
    ensures r.Some? ==> content.Table? && Get(content, "package").Some?
    ensures r.Some? ==> Get(content, "package").value.Table? && Get(Get(content, "package").value, "metadata").Some?
    ensures r.Some? ==> Get(Get(content, "package").value, "metadata").value.Table?
    ensures Get(content, "package").Some? && Get(Get(content, "package").value, "metadata").Some? ==>
              r == Get(Get(Get(content, "package").value, "metadata").value, "grub-bootimage")
  {
    match Get(content, "package")
    case None => None
    case Some(package) =>
      match Get(package, "metadata")
      case None => None
      case Some(metadata) => Get(metadata, "grub-bootimage")
  }

  /** `read_config` after the file has been read and parsed into `content`. */
  function ReadConfigSpec(content: Value): Result<Config, ConfigError> {
    match Metadata(content)
    case None => Ok(DefaultConfig())
    case Some(m) =>
      if m.Table? then ApplyEntries(DefaultConfig(), m.entries) else Err(ConfigInvalid(m))
  }

  /** `read_config`, imperatively: look the table up, then walk its entries
      updating a mutable configuration. */
  method ReadConfig(content: Value) returns (r: Result<Config, ConfigError>)
    ensures r == ReadConfigSpec(content)
  {
    var metadata := Metadata(content);
    if metadata.None? {
      return Ok(DefaultConfig());
    }
    if !metadata.value.Table? {
      return Err(ConfigInvalid(metadata.value));
    }
    var entries := metadata.value.entries;
    var config := DefaultConfig();
    var i := 0;
    while i < |entries|
      invariant 0 <= i <= |entries|
      invariant ApplyEntries(config, entries[i..]) == ApplyEntries(DefaultConfig(), entries)
    {
      var (key, value) := entries[i];
      assert entries[i..][0] == (key, value) && entries[i..][1..] == entries[i + 1..];
      if key == RUN_ARGS && value.Array? {
        var parsed := ParseConfig(value.items);
        if parsed.Err? {
          return Err(parsed.error);
        }
        assert parsed.value == Strings(value.items);
        config := config.(runArgs := Some(parsed.value));
      } else if key == TEST_ARGS && value.Array? {
        var parsed := ParseConfig(value.items);
        if parsed.Err? {
          return Err(parsed.error);
        }
        assert parsed.value == Strings(value.items);
        config := config.(testArgs := Some(parsed.value));
      } else if key == TEST_TIMEOUT && value.Integer? {
        config := config.(testTimeout := WrapU32(value.n));
      } else if key == TEST_SUCCESS_EXIT_CODE && value.Integer? {
        config := config.(testSuccessExitCode := Some(WrapI32(value.n)));
      } else {
        return Err(UnexpectedKey(key, value));
      }
      i := i + 1;
    }
    return Ok(config);
  }

  /** With no `grub-bootimage` entry the result is exactly the default. */
  lemma ReadConfigAbsent(content: Value)
    requires Metadata(content).None?
    ensures ReadConfigSpec(content).Ok?
    ensures var c := ReadConfigSpec(content).value;
      c.runArgs == None && c.testArgs == None && c.testSuccessExitCode == None && c.testTimeout == 300
  {
  }

  /** A `grub-bootimage` entry that is not a table is an error. */
  lemma ReadConfigNotTable(content: Value)
    requires Metadata(content).Some? && !Metadata(content).value.Table?
    ensures ReadConfigSpec(content) == Err(ConfigInvalid(Metadata(content).value))
  {
  }

  /** Reading a present table succeeds exactly when every entry is accepted;
      on success each field comes from its own key or keeps its default. */
  lemma ReadConfigTable(content: Value)
    requires Metadata(content).Some? && Metadata(content).value.Table?
    requires DistinctKeys(Metadata(content).value.entries)
    ensures var entries := Metadata(content).value.entries;
      && (ReadConfigSpec(content).Ok? <==> AllValid(entries))
      && (ReadConfigSpec(content).Ok? ==> ReadConfigSpec(content).value == Settled(DefaultConfig(), entries))
  {
    var entries := Metadata(content).value.entries;
    ApplyEntriesOkIff(DefaultConfig(), entries);
    if ReadConfigSpec(content).Ok? {
      ApplyEntriesSettles(DefaultConfig(), entries);
    }
  }

  /** Without a `test-timeout` key a successful read keeps the 300-second
      default; an in-range `test-timeout` is stored unchanged. */
  lemma ReadConfigTimeout(content: Value)
    requires Metadata(content).Some? && Metadata(content).value.Table?
    requires DistinctKeys(Metadata(content).value.entries)
    requires ReadConfigSpec(content).Ok?
    ensures var entries := Metadata(content).value.entries;
      var timeout := ReadConfigSpec(content).value.testTimeout;
      && (Find(entries, TEST_TIMEOUT).None? ==> timeout == 300)
      && (forall t: I64 :: (TEST_TIMEOUT, Integer(t)) in entries && 0 <= t < TWO_32 ==> timeout == t)
  {
    var entries := Metadata(content).value.entries;
    ReadConfigTable(content);
    forall t: I64 | (TEST_TIMEOUT, Integer(t)) in entries
      ensures Find(entries, TEST_TIMEOUT) == Some(Integer(t))
    {
      FindIsMembership(entries, TEST_TIMEOUT, Integer(t));
    }
  }
}

/** Worked readings of small manifests. */
module BootConfigExamples {
  import opened Wrappers
  import opened Toml
  import opened BootConfig

  /** A manifest whose `[package.metadata.grub-bootimage]` table holds `entries`. */
  function Manifest(entries: Entries): Value {
    Table([("package", Table([("metadata", Table([("grub-bootimage", Table(entries))]))]))])
  }

  /** A manifest without the table reads as the defaults. */
  lemma NoTableGivesDefaults()
    ensures ReadConfigSpec(Table([("package", Table([("name", String("kernel"))]))])) == Ok(Config(None, None, None, 300))
  {
  }

  /** A timeout written as a string is rejected as an unexpected entry. */
  lemma TimeoutAsStringRejected()
    ensures ReadConfigSpec(Manifest([(TEST_TIMEOUT, String("60"))])) == Err(UnexpectedKey(TEST_TIMEOUT, String("60")))
  {
  }

  /** A run argument that is not a string rejects the whole table. */
  lemma NonStringArgumentRejected()
    ensures ReadConfigSpec(Manifest([(RUN_ARGS, Array([String("-serial"), Integer(1)]))])) == Err(NotListOfStrings)
  {
  }

  /** A full table, with a negative timeout that wraps round to 2^32 - 1. */
  lemma FullTable()
    ensures ReadConfigSpec(Manifest([
              (RUN_ARGS, Array([String("-serial"), String("stdio")])),
              (TEST_SUCCESS_EXIT_CODE, Integer(33)),
              (TEST_TIMEOUT, Integer(-1))]))
            == Ok(Config(Some(["-serial", "stdio"]), None, Some(33), 0xFFFF_FFFF))
  {
    var args := [String("-serial"), String("stdio")];
    var entries := [(RUN_ARGS, Array(args)), (TEST_SUCCESS_EXIT_CODE, Integer(33)), (TEST_TIMEOUT, Integer(-1))];
    assert Metadata(Manifest(entries)) == Some(Table(entries));
    assert Strings(args) == ["-serial", "stdio"];
    var c1 := DefaultConfig().(runArgs := Some(["-serial", "stdio"]));
    var c2 := c1.(testSuccessExitCode := Some(33));
    var c3 := c2.(testTimeout := 0xFFFF_FFFF);
    assert ApplyEntry(DefaultConfig(), RUN_ARGS, Array(args)) == Ok(c1);
    assert ApplyEntry(c1, TEST_SUCCESS_EXIT_CODE, Integer(33)) == Ok(c2);
    assert ApplyEntry(c2, TEST_TIMEOUT, Integer(-1)) == Ok(c3);
    assert entries[1..][1..][1..] == [];
    assert ApplyEntries(c2, entries[1..][1..]) == ApplyEntries(c3, []) == Ok(c3);
    assert ApplyEntries(c1, entries[1..]) == Ok(c3);
    assert ApplyEntries(DefaultConfig(), entries) == Ok(c3);
  }
}
