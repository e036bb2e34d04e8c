/**
 * The configuration cache: a lazily fetched base layer (`LazyConfigDict`),
 * a layer of pending writes laid over it (`Config`, a two-map chain with the
 * writes first), and `ConfigCategory`, which turns `category.option` into the
 * flat key "category:option".
 *
 * The drone that owns the cache is the collaborator `Owner`: it hands out a
 * fixed raw configuration text (or fails to), counts how often it was asked
 * for it, and logs every command sent to it.
 */
module ConfigCache {
  import opened Wrappers
  import opened PyText
  import opened ConfigValues

  /** What a read can raise. */
  datatype Error =
    | FetchFailed                  // `get_raw_config` raised; its exception is passed on unchanged
    | MalformedLine(line: string)  // `row.split(' = ')` did not give exactly two parts
    | KeyMissing(key: string)      // KeyError

  /** The `CONFIG` command a write sends: key, then value. */
  datatype ConfigCommand = ConfigCommand(key: string, value: Value)

  // ---------------------------------------------------------------------------
  // Specification of the base layer's contents.
  // ---------------------------------------------------------------------------

  /**
   * `m.update(pairs)`: the pairs are stored in order, so a later pair wins
   * (`UpdateLastWins`). No key is removed, and a key no pair names keeps its
   * old value.
   */
  function Update(m: map<string, Value>, pairs: seq<(string, Value)>): (r: map<string, Value>)
    ensures m.Keys <= r.Keys
    ensures forall k :: k in m && (forall i :: 0 <= i < |pairs| ==> pairs[i].0 != k) ==> r[k] == m[k]
    decreases |pairs|
  {
    if pairs == [] then m
    else
      var last := pairs[|pairs| - 1];
      Update(m, pairs[..|pairs| - 1])[last.0 := last.1]
  }

  /** The keys after an update are the old keys and the names of the pairs. */
  lemma {:induction false} UpdateKeys(m: map<string, Value>, pairs: seq<(string, Value)>, key: string)
    ensures key in Update(m, pairs) <==> key in m || exists i :: 0 <= i < |pairs| && pairs[i].0 == key
    decreases |pairs|
  {
    if pairs != [] {
      var init := pairs[..|pairs| - 1];
      UpdateKeys(m, init, key);
      assert forall i :: 0 <= i < |init| ==> init[i] == pairs[i];
    }
  }

  /** The value stored for a key is the one of the last pair that names it. */
  lemma {:induction false} UpdateLastWins(m: map<string, Value>, pairs: seq<(string, Value)>, i: nat)
    requires i < |pairs|
    requires forall j :: i < j < |pairs| ==> pairs[j].0 != pairs[i].0
    ensures pairs[i].0 in Update(m, pairs) && Update(m, pairs)[pairs[i].0] == pairs[i].1
    decreases |pairs|
  {
    if i < |pairs| - 1 {
      var init := pairs[..|pairs| - 1];
      assert init[i] == pairs[i];
      UpdateLastWins(m, init, i);
    }
  }

  /** `d[key]` once the base layer holds `m`. */
  function Lookup(m: map<string, Value>, key: string): (r: Result<Value, Error>)
    ensures r.Ok? <==> key in m
    ensures r.Ok? ==> r.value == m[key]
    ensures r.Err? ==> r.error == KeyMissing(key)
  {
    if key in m then Ok(m[key]) else Err(KeyMissing(key))
  }

  /** The base layer after one `retrieve`, and the error it raised, if any. */
  datatype Fetched = Fetched(entries: map<string, Value>, error: Option<Error>)

  /**
   * `retrieve` on a base layer holding `m`, with the owner answering `raw`:
   * a failed fetch changes nothing; otherwise every pair `iter_config_file`
   * yields is stored, up to the line where it raises.
   */
  function Retrieval(m: map<string, Value>, raw: Option<string>, isFloat: string -> bool): (f: Fetched)
    ensures m.Keys <= f.entries.Keys
    ensures f.error == Some(FetchFailed) <==> raw.None?
    ensures raw.None? ==> f.entries == m
    ensures f.error.Some? && raw.Some? ==> f.error.value.MalformedLine? && !SplitsInTwo(f.error.value.line)
  {
    match raw
    case None => Fetched(m, Some(FetchFailed))
    case Some(text) =>
      var parsed := IterConfigFile(text, isFloat);
      Fetched(Update(m, parsed.pairs), if parsed.failure.Some? then Some(MalformedLine(parsed.failure.value)) else None)
  }

  /** A well-formed dump fills the base layer with every decoded entry and raises nothing. */
  lemma RetrievalOfDump(m: map<string, Value>, entries: seq<(string, string)>, isFloat: string -> bool)
    requires forall i :: 0 <= i < |entries| ==> WellFormedEntry(entries[i])
    ensures Retrieval(m, Some(Dump(entries)), isFloat) == Fetched(Update(m, Decoded(entries, isFloat)), None)
  {
    IterDump(entries, isFloat);
  }

  /**
   * A malformed line makes `retrieve` raise, but the pairs of the lines before
   * it have already been stored.
   */
  lemma RetrievalKeepsPrefix(m: map<string, Value>, entries: seq<(string, string)>, bad: string, rest: string, isFloat: string -> bool)
    requires forall i :: 0 <= i < |entries| ==> WellFormedEntry(entries[i])
    requires NoLineBreak(bad) && !SplitsInTwo(bad)
    ensures Retrieval(m, Some(Dump(entries) + bad + "\n" + rest), isFloat)
         == Fetched(Update(m, Decoded(entries, isFloat)), Some(MalformedLine(bad)))
  {
    IterAborts(entries, bad, rest, isFloat);
  }

  /**
   * After a first fetch of a well-formed dump, a name the dump defines reads as
   * the decoding of its last raw value, and any other key is a KeyError.
   */
  lemma ReadAfterFetch(entries: seq<(string, string)>, key: string, isFloat: string -> bool)
    requires forall i :: 0 <= i < |entries| ==> WellFormedEntry(entries[i])
    ensures var f := Retrieval(map[], Some(Dump(entries)), isFloat);
      f.error.None? &&
      (forall i :: (0 <= i < |entries| && entries[i].0 == key &&
                    (forall j :: i < j < |entries| ==> entries[j].0 != key)) ==>
         Lookup(f.entries, key) == Ok(Unpack(entries[i].1, isFloat))) &&
      ((forall i :: 0 <= i < |entries| ==> entries[i].0 != key) ==> Lookup(f.entries, key) == Err(KeyMissing(key)))
  {
    RetrievalOfDump(map[], entries, isFloat);
    var pairs := Decoded(entries, isFloat);
    forall i | 0 <= i < |entries| && entries[i].0 == key && (forall j :: i < j < |entries| ==> entries[j].0 != key)
      ensures Lookup(Update(map[], pairs), key) == Ok(Unpack(entries[i].1, isFloat))
    {
      assert forall j :: i < j < |pairs| ==> pairs[j].0 == entries[j].0;
      UpdateLastWins(map[], pairs, i);
    }
    UpdateKeys(map[], pairs, key);
    assert forall i :: 0 <= i < |pairs| ==> pairs[i].0 == entries[i].0;
  }

  // ---------------------------------------------------------------------------
  // The owner and the two layers.
  // ---------------------------------------------------------------------------

  /** The drone as the cache sees it. */
  class Owner {
    /** What `get_raw_config` returns; `None` when it raises. */
    var rawConfig: Option<string>
    /** How many times `get_raw_config` was called. */
    var fetches: nat
    /** Every command passed to `send`, oldest first. */
    var sent: seq<ConfigCommand>

    constructor (rawConfig: Option<string>)
      ensures this.rawConfig == rawConfig && fetches == 0 && sent == []
    {
      this.rawConfig := rawConfig;
      fetches := 0;
      sent := [];
    }

    method GetRawConfig() returns (raw: Option<string>)
      modifies this`fetches
      ensures raw == rawConfig
      ensures fetches == old(fetches) + 1
    {
      fetches := fetches + 1;
      raw := rawConfig;
    }

    method Send(command: ConfigCommand)
      modifies this`sent
      ensures sent == old(sent) + [command]
    {
      sent := sent + [command];
    }
  }

  /** The base layer: filled from the owner on the first read, emptied by `Clear`. */
  class LazyConfigDict {
    const owner: Owner
    /** Python's `float()` acceptance test, used by the decoder. */
    const isFloat: string -> bool
    var retrieved: bool
    var entries: map<string, Value>

    constructor (owner: Owner, isFloat: string -> bool)
      ensures this.owner == owner && this.isFloat == isFloat
      ensures !retrieved && entries == map[]
    {
      this.owner := owner;
      this.isFloat := isFloat;
      retrieved := false;
      entries := map[];
    }

    /**
     * `retrieve`: the flag is raised before the owner is asked, so it stays
     * raised when the fetch or the parse fails.
     */
    method Retrieve() returns (error: Option<Error>)
      modifies this`retrieved, this`entries, owner`fetches
      ensures retrieved
      ensures owner.fetches == old(owner.fetches) + 1
      ensures Fetched(entries, error) == Retrieval(old(entries), owner.rawConfig, isFloat)
    {
      retrieved := true;
      var raw := owner.GetRawConfig();
      if raw.None? {
        return Some(FetchFailed);
      }
      var parsed := IterConfigFile(raw.value, isFloat);
      var i := 0;
      while i < |parsed.pairs|
        invariant 0 <= i <= |parsed.pairs|
        invariant entries == Update(old(entries), parsed.pairs[..i])
        invariant retrieved && owner.fetches == old(owner.fetches) + 1
      {
        assert parsed.pairs[..i + 1][..i] == parsed.pairs[..i];
        entries := entries[parsed.pairs[i].0 := parsed.pairs[i].1];
        i := i + 1;
      }
      assert parsed.pairs[..i] == parsed.pairs;
      error := if parsed.failure.Some? then Some(MalformedLine(parsed.failure.value)) else None;
    }

    /** `self[key]`: fetch first if nothing was fetched since the last `Clear`. */
    method Get(key: string) returns (r: Result<Value, Error>)
      modifies this`retrieved, this`entries, owner`fetches
      ensures LazyRead(this, key, r)
    {
      if !retrieved {
        var error := Retrieve();
        if error.Some? {
          return Err(error.value);
        }
      }
      r := Lookup(entries, key);
    }

    /** `clear`: forget the fetched entries and fetch again on the next read. */
    method Clear()
      modifies this`retrieved, this`entries
      ensures !retrieved && entries == map[]
    {
      retrieved := false;
      entries := map[];
    }
  }

  /**
   * What a read of the base layer does: afterwards the layer counts as
   * fetched; if it already was, nothing changes and the key is looked up;
   * otherwise the owner is asked exactly once, the entries are those of
   * `Retrieval`, and a fetch or parse error is raised instead of the lookup.
   */
  twostate predicate LazyRead(d: LazyConfigDict, key: string, new r: Result<Value, Error>)
    reads d, d.owner
  {
    d.retrieved &&
    (old(d.retrieved) ==>
       d.entries == old(d.entries) && d.owner.fetches == old(d.owner.fetches) && r == Lookup(d.entries, key)) &&
    (!old(d.retrieved) ==>
       d.owner.fetches == old(d.owner.fetches) + 1 &&
       var f := Retrieval(old(d.entries), d.owner.rawConfig, d.isFloat);
       d.entries == f.entries &&
       r == if f.error.Some? then Err(f.error.value) else Lookup(f.entries, key))
  }

  /** The cache: pending writes in `updates`, laid over the lazily fetched `data`. */
  class Config {
    const owner: Owner
    const data: LazyConfigDict
    var updates: map<string, Value>

    ghost predicate Valid() {
      data.owner == owner
    }

    constructor (owner: Owner, isFloat: string -> bool)
      ensures Valid() && this.owner == owner && fresh(data)
      ensures data.isFloat == isFloat && !data.retrieved && data.entries == map[]
      ensures updates == map[]
    {
      this.owner := owner;
      data := new LazyConfigDict(owner, isFloat);
      updates := map[];
    }

    /** `self[key]`: the pending writes first, then the base layer. */
    method Get(key: string) returns (r: Result<Value, Error>)
      requires Valid()
      modifies data`retrieved, data`entries, owner`fetches
      ensures ConfigRead(this, key, r)
    {
      if key in updates {
        return Ok(updates[key]);
      }
      r := data.Get(key);
    }

    /** `self[key] = value`: store the write and send one `CONFIG` command. */
    method Set(key: string, value: Value)
      requires Valid()
      modifies this`updates, owner`sent
      ensures updates == old(updates)[key := value]
      ensures owner.sent == old(owner.sent) + [ConfigCommand(key, value)]
    {
      updates := updates[key := value];
      owner.Send(ConfigCommand(key, value));
    }

    /** `clear_cache`: drop the pending writes and the fetched entries. */
    method ClearCache()
      requires Valid()
      modifies this`updates, data`retrieved, data`entries
      ensures updates == map[] && data.entries == map[] && !data.retrieved
    {
      updates := map[];
      data.Clear();
    }
  }

  /**
   * What a read of the cache does: a pending write answers it and nothing
   * else is touched, so nothing is fetched; otherwise it is a read of the base
   * layer.
   */
  twostate predicate ConfigRead(c: Config, key: string, new r: Result<Value, Error>)
    reads c, c.data, c.owner, c.data.owner
  {
    (key in c.updates ==>
       r == Ok(c.updates[key]) &&
       c.data.retrieved == old(c.data.retrieved) && c.data.entries == old(c.data.entries) &&
       c.owner.fetches == old(c.owner.fetches)) &&
    (key !in c.updates ==> LazyRead(c.data, key, r))
  }

  // ---------------------------------------------------------------------------
  // Categories.
  // ---------------------------------------------------------------------------

  /**
   * `_get_option_name`: the flat key of `category.option`, the category name,
   * a colon, then the option name.
   */
  function OptionKey(category: string, option: string): (key: string)
    ensures |key| == |category| + 1 + |option|
    ensures key[..|category|] == category && key[|category|] == ':' && key[|category| + 1..] == option
  {
    category + ":" + option
  }

  /**
   * For categories without a colon, the flat key determines the category and
   * the option: two accessors share a key exactly when they name the same
   * option of the same category.
   */
  lemma OptionKeyInjective(c1: string, o1: string, c2: string, o2: string)
    requires forall i :: 0 <= i < |c1| ==> c1[i] != ':'
    requires forall i :: 0 <= i < |c2| ==> c2[i] != ':'
    ensures OptionKey(c1, o1) == OptionKey(c2, o2) <==> c1 == c2 && o1 == o2
  {
    var k1, k2 := OptionKey(c1, o1), OptionKey(c2, o2);
    assert k1[|c1|] == ':' && forall i :: 0 <= i < |c1| ==> k1[i] == c1[i];
    assert k2[|c2|] == ':' && forall i :: 0 <= i < |c2| ==> k2[i] == c2[i];
    if k1 == k2 {
      assert |c1| == |c2|;
      assert c1 == k1[..|c1|] && c2 == k2[..|c2|];
      assert o1 == k1[|c1| + 1..] && o2 == k2[|c2| + 1..];
    }
  }

  /** `config.<name>`: a view of one category of a cache. */
  class ConfigCategory {
    const context: Config
    const name: string

    constructor (context: Config, name: string)
      ensures this.context == context && this.name == name
    {
      this.context := context;
      this.name := name;
    }

    /** `category.<option>`: reads the cache at "category:option". */
    method Get(option: string) returns (r: Result<Value, Error>)
      requires context.Valid()
      modifies context.data`retrieved, context.data`entries, context.owner`fetches
      ensures ConfigRead(context, OptionKey(name, option), r)
    {
      r := context.Get(OptionKey(name, option));
    }

    /** `category.<option> = value`: writes the cache at "category:option". */
    method Set(option: string, value: Value)
      requires context.Valid()
      modifies context`updates, context.owner`sent
      ensures context.updates == old(context.updates)[OptionKey(name, option) := value]
      ensures context.owner.sent == old(context.owner.sent) + [ConfigCommand(OptionKey(name, option), value)]
    {
      context.Set(OptionKey(name, option), value);
    }
  }

  // ---------------------------------------------------------------------------
  // Fetch at most once.
  // ---------------------------------------------------------------------------

  /**
   * Reads a run of keys through the cache. The owner is asked for the raw
   * configuration at most once: exactly once if the base layer was not yet
   * fetched and some key has no pending write, and never otherwise.
   */
  method ReadMany(config: Config, keys: seq<string>) returns (results: seq<Result<Value, Error>>)
    requires config.Valid()
    modifies config.data`retrieved, config.data`entries, config.owner`fetches
    ensures |results| == |keys|
    ensures config.data.retrieved == (old(config.data.retrieved) || exists i :: 0 <= i < |keys| && keys[i] !in config.updates)
    ensures config.owner.fetches == old(config.owner.fetches) + (if config.data.retrieved && !old(config.data.retrieved) then 1 else 0)
  {
    results := [];
    var i := 0;
    while i < |keys|
      invariant 0 <= i <= |keys| && |results| == i
      invariant config.data.retrieved == (old(config.data.retrieved) || exists j :: 0 <= j < i && keys[j] !in config.updates)
      invariant config.owner.fetches == old(config.owner.fetches) + (if config.data.retrieved && !old(config.data.retrieved) then 1 else 0)
    {
      var r := config.Get(keys[i]);
      results := results + [r];
      i := i + 1;
    }
  }
}
