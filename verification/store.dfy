/** The configuration store: Python's `ConfigParser` seen as a two-level map
    from section name to (option name to string value).

    Only the operations the tool uses are modelled: `get` with a fallback,
    `has_section`, `add_section`, `set`, item lookup and `read`, where `read`
    takes a file that is already parsed into a store of its own. */
module ConfigStore {
  import opened Results

  type Section = map<string, string>
  type Store = map<string, Section>

  /** The value stored under `section.prop`, if there is one. */
  function Lookup(c: Store, section: string, prop: string): Option<string> {
    if section in c && prop in c[section] then Some(c[section][prop]) else None
  }

  predicate Has(c: Store, section: string, prop: string) {
    section in c && prop in c[section]
  }

  /** `c[section][prop]`, for a key known to be there. */
  function Get(c: Store, section: string, prop: string): string
    requires Has(c, section, prop)
  {
    c[section][prop]
  }

  /** `c[section][prop]` on any store: the section is looked up first, so a
      missing section is reported before a missing option. */
  function Item(c: Store, section: string, prop: string): (r: Result<string>)
    ensures r.Ok? <==> Has(c, section, prop)
    ensures r.Ok? ==> Lookup(c, section, prop) == Some(r.value)
    ensures section !in c ==> r == Err(MissingSection(section))
    ensures section in c && prop !in c[section] ==> r == Err(MissingKey(section, prop))
  {
    if section !in c then Err(MissingSection(section))
    else if prop !in c[section] then Err(MissingKey(section, prop))
    else Ok(c[section][prop])
  }

  /** What `c.get(section, prop, fallback = False)` tests as true: a value is
      there and it is not the empty string. */
  predicate IsSet(c: Store, section: string, prop: string) {
    Has(c, section, prop) && c[section][prop] != ""
  }

  /** Every key other than `section.prop` reads the same in `a` and `b`. */
  ghost predicate SameExcept(a: Store, b: Store, section: string, prop: string) {
    forall s, p :: s != section || p != prop ==> Lookup(a, s, p) == Lookup(b, s, p)
  }

  /** `add_section(section)` when the section is missing, then `set(section, prop, v)`. */
  function Put(c: Store, section: string, prop: string, v: string): (r: Store)
    ensures Lookup(r, section, prop) == Some(v)
    ensures r.Keys == c.Keys + {section}
    ensures SameExcept(c, r, section, prop)
  {
    var old_section := if section in c then c[section] else map[];
    c[section := old_section[prop := v]]
  }

  /** `c.read(file)` for a file whose parsed contents are `layer`: every
      section of the file is added, and every option of the file overrides
      the option of the same name already in `c`. */
  function Read(c: Store, layer: Store): (r: Store)
    ensures r.Keys == c.Keys + layer.Keys
    ensures forall s, p :: Lookup(r, s, p) == if Lookup(layer, s, p).Some? then Lookup(layer, s, p) else Lookup(c, s, p)
  {
    map s | s in c.Keys + layer.Keys ::
      (if s in c then c[s] else map[]) + (if s in layer then layer[s] else map[])
  }

  /** Reading several files one after the other, first to last. */
  function ReadAll(c: Store, layers: seq<Store>): Store
    decreases |layers|
  {
    if |layers| == 0 then c else ReadAll(Read(c, layers[0]), layers[1..])
  }

  /** The value of a key after reading several files comes from the last file
      that has the key, or from the store read into when none has it. */
  function LastDefined(c: Store, layers: seq<Store>, section: string, prop: string): Option<string>
    decreases |layers|
  {
    if |layers| == 0 then Lookup(c, section, prop)
    else if Lookup(layers[|layers| - 1], section, prop).Some? then Lookup(layers[|layers| - 1], section, prop)
    else LastDefined(c, layers[..|layers| - 1], section, prop)
  }

  lemma {:induction false} ReadAllSnoc(c: Store, layers: seq<Store>, last: Store)
    ensures ReadAll(c, layers + [last]) == Read(ReadAll(c, layers), last)
    decreases |layers|
  {
    if |layers| == 0 {
      assert layers + [last] == [last];
    } else {
      assert (layers + [last])[1..] == layers[1..] + [last];
      ReadAllSnoc(Read(c, layers[0]), layers[1..], last);
    }
  }

  lemma ReadAllPair(c: Store, first: Store, second: Store)
    ensures ReadAll(c, [first, second]) == Read(Read(c, first), second)
  {
    var c1 := Read(c, first);
    assert [first, second][1..] == [second];
    assert ReadAll(c, [first, second]) == ReadAll(c1, [second]);
    assert [second][1..] == [];
    assert ReadAll(c1, [second]) == ReadAll(Read(c1, second), []);
  }

  /** With two files: the second file's value, else the first's, else the
      store's. */
  lemma LastDefinedPair(c: Store, first: Store, second: Store, section: string, prop: string)
    ensures LastDefined(c, [first, second], section, prop) ==
      if Lookup(second, section, prop).Some? then Lookup(second, section, prop)
      else if Lookup(first, section, prop).Some? then Lookup(first, section, prop)
      else Lookup(c, section, prop)
  {
    assert [first, second][..1] == [first];
    assert [first][..0] == [];
    assert LastDefined(c, [first], section, prop) ==
      if Lookup(first, section, prop).Some? then Lookup(first, section, prop) else LastDefined(c, [], section, prop);
  }

  /** Later files win, key by key: the fold over layers agrees with the
      last-writer definition. */
  lemma {:induction false} ReadAllLastWins(c: Store, layers: seq<Store>, section: string, prop: string)
    ensures Lookup(ReadAll(c, layers), section, prop) == LastDefined(c, layers, section, prop)
    decreases |layers|
  {
    if |layers| > 0 {
      var init := layers[..|layers| - 1];
      var last := layers[|layers| - 1];
      assert layers == init + [last];
      ReadAllSnoc(c, init, last);
      ReadAllLastWins(c, init, section, prop);
    }
  }

  /** Two stores with the same sections and the same lookups are equal. */
  lemma StoreEquality(a: Store, b: Store)
    requires a.Keys == b.Keys
    requires forall s, p :: Lookup(a, s, p) == Lookup(b, s, p)
    ensures a == b
  {
    forall s | s in a
      ensures a[s] == b[s]
    {
      forall p | p in a[s]
        ensures p in b[s] && a[s][p] == b[s][p]
      {
        assert Lookup(a, s, p) == Lookup(b, s, p);
      }
      forall p | p in b[s]
        ensures p in a[s]
      {
        assert Lookup(a, s, p) == Lookup(b, s, p);
      }
    }
  }

  /** Reading the same file twice is the same as reading it once. */
  lemma ReadIdempotent(c: Store, layer: Store)
    ensures Read(Read(c, layer), layer) == Read(c, layer)
  {
    StoreEquality(Read(Read(c, layer), layer), Read(c, layer));
  }

  /** Reading never removes a key: what was there stays there, possibly with
      the value of the file. */
  lemma ReadKeeps(c: Store, layer: Store, section: string, prop: string)
    requires Has(c, section, prop)
    ensures Has(Read(c, layer), section, prop)
  {
    assert Lookup(Read(c, layer), section, prop).Some?;
  }
}
