/**
 * The default-value resolver of `details_of` in cwlgenerator.py: from the
 * decoded detail tree of one parameter it builds four lists of default
 * values, one per sequence context (protein, nucleotide, vector) and one
 * generic list.
 *
 * The tree is the mapping-shaped part of the decoded XML that the resolver
 * looks at. A member that the XML lacks is `None`; every guard of the
 * original (`'properties' in value`, `'key' in pro`, ...) is a test for
 * `Some`.
 */
module Defaults {
  import opened Wrappers
  import opened Strings

  /** One `{key, value}` pair under `properties/property`. */
  datatype Property = Property(key: Option<string>, value: Option<string>)

  /**
   * The `property` member: a list when the XML holds several `property`
   * elements, a single pair when it holds exactly one.
   */
  datatype PropertyNode = PropertyList(items: seq<Property>) | SingleProperty(item: Property)

  /** The `properties` member of a value entry. */
  datatype Properties = Properties(property: Option<PropertyNode>)

  /** One element of `values/value`: an admissible value of the parameter. */
  datatype ValueEntry = ValueEntry(
    value: Option<string>,
    defaultValue: Option<string>,
    properties: Option<Properties>)

  /** The `values` member: its `value` member lists the entries. */
  datatype ValuesNode = ValuesNode(value: Option<seq<ValueEntry>>)

  /** The decoded `parameter` element; only its `values` member is consulted. */
  datatype ParameterTree = ParameterTree(values: Option<ValuesNode>)

  /** The three sequence contexts, visited in this order. */
  datatype Context = Protein | Nucleotide | Vector

  const Contexts: seq<Context> := [Protein, Nucleotide, Vector]

  function ContextName(ctx: Context): string {
    match ctx
    case Protein => "protein"
    case Nucleotide => "nucleotide"
    case Vector => "vector"
  }

  /** Position of a context in `Contexts`. */
  function ContextIndex(ctx: Context): (k: nat)
    ensures k < |Contexts| && Contexts[k] == ctx
  {
    match ctx
    case Protein => 0
    case Nucleotide => 1
    case Vector => 2
  }

  /** The four default lists, always all present. */
  datatype Buckets = Buckets(protein: seq<string>, nucleotide: seq<string>, vector: seq<string>, generic: seq<string>)
  {
    function Get(ctx: Context): seq<string> {
      match ctx
      case Protein => protein
      case Nucleotide => nucleotide
      case Vector => vector
    }

    /** `default_values[ctx].append(v)`. */
    function Add(ctx: Context, v: string): (b: Buckets)
      ensures b.Get(ctx) == Get(ctx) + [v]
      ensures forall other :: other != ctx ==> b.Get(other) == Get(other)
      ensures b.generic == generic
    {
      match ctx
      case Protein => this.(protein := protein + [v])
      case Nucleotide => this.(nucleotide := nucleotide + [v])
      case Vector => this.(vector := vector + [v])
    }

    /** Each list of `this` followed by the same list of `other`. */
    function Concat(other: Buckets): Buckets {
      Buckets(protein + other.protein, nucleotide + other.nucleotide, vector + other.vector, generic + other.generic)
    }
  }

  const NoDefaults := Buckets([], [], [], [])

  // ---------------------------------------------------------------------
  // The specification: what each list holds, entry by entry.

  /** The property lists `ctx` among its `defaultValueContexts` (a substring test). */
  predicate MarksContext(p: Property, ctx: Context) {
    p.key == Some("defaultValueContexts") && p.value.Some? && IsSubstring(ContextName(ctx), p.value.value)
  }

  /** `v` once for every property of `props` that marks `ctx`, in order. */
  function PropertiesContext(ctx: Context, props: seq<Property>, v: string): seq<string>
    decreases |props|
  {
    if props == [] then []
    else
      PropertiesContext(ctx, props[..|props| - 1], v)
      + (if MarksContext(props[|props| - 1], ctx) then [v] else [])
  }

  /** The entry's properties when `properties/property` is a list; a single pair gives None. */
  function PropertyListOf(e: ValueEntry): Option<seq<Property>> {
    match e.properties
    case Some(Properties(Some(PropertyList(items)))) => Some(items)
    case _ => None
  }

  /** What one entry adds to the list of `ctx`. */
  function EntryContext(ctx: Context, e: ValueEntry): seq<string> {
    if e.value.Some? && PropertyListOf(e).Some? then PropertiesContext(ctx, PropertyListOf(e).value, e.value.value)
    else []
  }

  /** The entry is flagged `defaultValue == "true"` and has a value. */
  predicate IsGenericDefault(e: ValueEntry) {
    e.defaultValue == Some("true") && e.value.Some?
  }

  /** What one entry adds to the generic list. */
  function EntryGeneric(e: ValueEntry): seq<string> {
    if IsGenericDefault(e) then [e.value.value] else []
  }

  /** What each entry adds, one entry after the other. */
  function Collect(add: ValueEntry -> seq<string>, entries: seq<ValueEntry>): seq<string>
    decreases |entries|
  {
    if entries == [] then []
    else Collect(add, entries[..|entries| - 1]) + add(entries[|entries| - 1])
  }

  /** The list of `ctx`: each entry's value once per property of its list that names `ctx`. */
  function ContextBucket(ctx: Context, entries: seq<ValueEntry>): seq<string> {
    Collect(e => EntryContext(ctx, e), entries)
  }

  /** The generic list: the value of every entry flagged as the default, in order. */
  function GenericBucket(entries: seq<ValueEntry>): seq<string> {
    Collect(EntryGeneric, entries)
  }

  /** The four lists built from a list of entries. */
  function EntriesDefaults(entries: seq<ValueEntry>): Buckets {
    Buckets(
      ContextBucket(Protein, entries),
      ContextBucket(Nucleotide, entries),
      ContextBucket(Vector, entries),
      GenericBucket(entries))
  }

  /** The entries under `values/value`, when both members are there. */
  function ValueEntries(tree: ParameterTree): Option<seq<ValueEntry>> {
    match tree.values
    case Some(ValuesNode(Some(entries))) => Some(entries)
    case _ => None
  }

  /** The default lists of a parameter, given its name and its detail tree. */
  function DefaultValues(paramName: string, tree: ParameterTree): Buckets {
    if paramName == "stype" then NoDefaults
    else
      match ValueEntries(tree)
      case Some(entries) => EntriesDefaults(entries)
      case None => NoDefaults
  }

  // ---------------------------------------------------------------------
  // The resolver, loop for loop.

  /**
   * One property of a listed entry with value `v`: when its key is
   * `defaultValueContexts`, `v` goes to every context named inside its value.
   */
  method AddPropertyContexts(b: Buckets, pro: Property, v: string) returns (r: Buckets)
    ensures r.generic == b.generic
    ensures forall ctx :: r.Get(ctx) == b.Get(ctx) + (if MarksContext(pro, ctx) then [v] else [])
  {
    r := b;
    if pro.key.Some? && pro.value.Some? && pro.key.value == "defaultValueContexts" {
      for k := 0 to |Contexts|
        invariant r.generic == b.generic
        invariant forall ctx ::
          r.Get(ctx) == b.Get(ctx) + (if ContextIndex(ctx) < k && MarksContext(pro, ctx) then [v] else [])
      {
        var ctx := Contexts[k];
        if IsSubstring(ContextName(ctx), pro.value.value) {
          r := r.Add(ctx, v);
        }
      }
    }
  }

  /** The context lists after one entry: its property list, when it is a list, walked in order. */
  method AddEntryContexts(b: Buckets, entry: ValueEntry) returns (r: Buckets)
    ensures r.generic == b.generic
    ensures forall ctx :: r.Get(ctx) == b.Get(ctx) + EntryContext(ctx, entry)
  {
    r := b;
    if entry.properties.Some? && entry.properties.value.property.Some? {
      var prop := entry.properties.value.property.value;
      if prop.PropertyList? && entry.value.Some? {
        var props, v := prop.items, entry.value.value;
        for j := 0 to |props|
          invariant r.generic == b.generic
          invariant forall ctx :: r.Get(ctx) == b.Get(ctx) + PropertiesContext(ctx, props[..j], v)
        {
          assert props[..j + 1][..j] == props[..j];
          r := AddPropertyContexts(r, props[j], v);
        }
        assert props[..|props|] == props;
      }
    }
  }

  /**
   * The bucket-building part of `details_of`: the loop over the entries,
   * appending to the context lists and then to the generic list.
   */
  method ResolveDefaults(paramName: string, tree: ParameterTree) returns (b: Buckets)
    ensures b == DefaultValues(paramName, tree)
    ensures paramName == "stype" ==> b == NoDefaults
    ensures ValueEntries(tree).None? ==> b == NoDefaults
  {
    b := NoDefaults;
    if paramName == "stype" {
      return;
    }
    var found := ValueEntries(tree);
    if found.None? {
      return;
    }
    var entries := found.value;
    for i := 0 to |entries|
      invariant b == EntriesDefaults(entries[..i])
    {
      var entry := entries[i];
      assert entries[..i + 1][..i] == entries[..i];
      b := AddEntryContexts(b, entry);
      if entry.defaultValue.Some? && entry.value.Some? && entry.defaultValue.value == "true" {
        b := b.(generic := b.generic + [entry.value.value]);
      }
      assert b.protein == b.Get(Protein) && b.nucleotide == b.Get(Nucleotide) && b.vector == b.Get(Vector);
    }
    assert entries[..|entries|] == entries;
  }

  // ---------------------------------------------------------------------
  // What the lists hold.

  /** A single entry contributes what `add` gives for it. */
  lemma CollectSingle(add: ValueEntry -> seq<string>, e: ValueEntry)
    ensures Collect(add, [e]) == add(e)
  {
  }

  lemma {:induction false} CollectAppend(add: ValueEntry -> seq<string>, a: seq<ValueEntry>, b: seq<ValueEntry>)
    ensures Collect(add, a + b) == Collect(add, a) + Collect(add, b)
    decreases |b|
  {
    if b == [] {
      assert a + b == a;
    } else {
      var n := |b| - 1;
      assert (a + b)[..|a + b| - 1] == a + b[..n];
      assert (a + b)[|a + b| - 1] == b[n];
      CollectAppend(add, a, b[..n]);
    }
  }

  /**
   * The lists only grow by appending: the lists of a concatenation of
   * entries are those of the first part followed by those of the second.
   */
  lemma EntriesDefaultsAppend(a: seq<ValueEntry>, b: seq<ValueEntry>)
    ensures EntriesDefaults(a + b) == EntriesDefaults(a).Concat(EntriesDefaults(b))
  {
    CollectAppend(e => EntryContext(Protein, e), a, b);
    CollectAppend(e => EntryContext(Nucleotide, e), a, b);
    CollectAppend(e => EntryContext(Vector, e), a, b);
    CollectAppend(EntryGeneric, a, b);
  }

  /** The indices of the entries flagged as generic defaults, in increasing order. */
  function GenericIndices(entries: seq<ValueEntry>): (r: seq<nat>)
    ensures forall k :: 0 <= k < |r| ==> r[k] < |entries| && IsGenericDefault(entries[r[k]])
    ensures forall k, l :: 0 <= k < l < |r| ==> r[k] < r[l]
    ensures forall i :: 0 <= i < |entries| && IsGenericDefault(entries[i]) ==> i in r
    decreases |entries|
  {
    if entries == [] then []
    else
      var n := |entries| - 1;
      var prev := GenericIndices(entries[..n]);
      assert forall i :: 0 <= i < n ==> entries[..n][i] == entries[i];
      if IsGenericDefault(entries[n]) then prev + [n] else prev
  }

  /**
   * The generic list holds exactly the values of the entries flagged
   * `defaultValue == "true"`, one per such entry, in input order.
   */
  lemma {:induction false} GenericBucketSelects(entries: seq<ValueEntry>)
    ensures var idx := GenericIndices(entries);
      |GenericBucket(entries)| == |idx|
      && forall k :: 0 <= k < |idx| ==> GenericBucket(entries)[k] == entries[idx[k]].value.value
    decreases |entries|
  {
    if entries != [] {
      var n := |entries| - 1;
      GenericBucketSelects(entries[..n]);
      assert forall i :: 0 <= i < n ==> entries[..n][i] == entries[i];
    }
  }

  /** `v` is in the properties' contribution iff it is the entry value and some property marks `ctx`. */
  lemma {:induction false} PropertiesContextMembers(ctx: Context, props: seq<Property>, v: string, x: string)
    ensures x in PropertiesContext(ctx, props, v) <==>
      x == v && exists j :: 0 <= j < |props| && MarksContext(props[j], ctx)
    decreases |props|
  {
    if props != [] {
      var n := |props| - 1;
      PropertiesContextMembers(ctx, props[..n], v, x);
      assert forall j :: 0 <= j < n ==> props[..n][j] == props[j];
    }
  }

  /** The entry has a value and a property list one of whose members marks `ctx`. */
  predicate FlagsContext(e: ValueEntry, ctx: Context) {
    e.value.Some? && PropertyListOf(e).Some?
    && exists j :: 0 <= j < |PropertyListOf(e).value| && MarksContext(PropertyListOf(e).value[j], ctx)
  }

  /**
   * A value is in the list of `ctx` exactly when some entry with that value
   * has a property list with a `defaultValueContexts` property naming `ctx`.
   */
  lemma {:induction false} ContextBucketMembers(ctx: Context, entries: seq<ValueEntry>, x: string)
    ensures x in ContextBucket(ctx, entries) <==>
      exists i :: 0 <= i < |entries| && entries[i].value == Some(x) && FlagsContext(entries[i], ctx)
    decreases |entries|
  {
    if entries != [] {
      var n := |entries| - 1;
      var e := entries[n];
      ContextBucketMembers(ctx, entries[..n], x);
      assert forall i :: 0 <= i < n ==> entries[..n][i] == entries[i];
      if e.value.Some? && PropertyListOf(e).Some? {
        PropertiesContextMembers(ctx, PropertyListOf(e).value, e.value.value, x);
      }
    }
  }

  /** Entries whose `property` is a single pair, not a list, add nothing to the context lists. */
  lemma {:induction false} SinglePropertiesAddNoContexts(ctx: Context, entries: seq<ValueEntry>)
    requires forall i :: 0 <= i < |entries| ==> PropertyListOf(entries[i]).None?
    ensures ContextBucket(ctx, entries) == []
    decreases |entries|
  {
    if entries != [] {
      var n := |entries| - 1;
      assert forall i :: 0 <= i < n ==> entries[..n][i] == entries[i];
      SinglePropertiesAddNoContexts(ctx, entries[..n]);
    }
  }

  /**
   * Two entries as the decoder gives them: `e`, with value `v`, flagged as
   * the generic default, whose `property` list holds a `context` property
   * and a `defaultValueContexts` property with text `contexts`; and `f`,
   * with value `w`, neither flagged nor carrying properties. The lists get
   * `v` in the generic list and in the list of each context whose name the
   * text contains, and nothing from `f`.
   */
  lemma ContextsEntryDefaults(ctx: Context, v: string, contexts: string, c: string, w: string)
    ensures var q := Property(Some("context"), Some(c));
      var p := Property(Some("defaultValueContexts"), Some(contexts));
      var e := ValueEntry(Some(v), Some("true"), Some(Properties(Some(PropertyList([q, p])))));
      var f := ValueEntry(Some(w), Some("false"), None);
      EntriesDefaults([e, f]).Get(ctx) == (if IsSubstring(ContextName(ctx), contexts) then [v] else [])
      && EntriesDefaults([e, f]).generic == [v]
  {
    var q := Property(Some("context"), Some(c));
    var p := Property(Some("defaultValueContexts"), Some(contexts));
    var e := ValueEntry(Some(v), Some("true"), Some(Properties(Some(PropertyList([q, p])))));
    var f := ValueEntry(Some(w), Some("false"), None);
    EntriesDefaultsPair(ctx, e, f);
    ContextsEntry(ctx, v, contexts, c);
    assert EntryContext(ctx, f) == [];
    assert EntryGeneric(e) == [v];
    assert EntryGeneric(f) == [] by {
      assert |f.defaultValue.value| != |"true"|;
    }
  }

  /**
   * With the text "proteinnucleotide" the flagged entry lands in the
   * protein, nucleotide and generic lists, and not in the vector list.
   * The example text is a parameter pinned by the `requires`, not a literal
   * in the statement, so that its characters are unfolded only inside the
   * small lemmas that need them.
   */
  lemma ProteinNucleotideExample(v: string, contexts: string, c: string, w: string)
    requires contexts == "proteinnucleotide"
    ensures var q := Property(Some("context"), Some(c));
      var p := Property(Some("defaultValueContexts"), Some(contexts));
      var e := ValueEntry(Some(v), Some("true"), Some(Properties(Some(PropertyList([q, p])))));
      var f := ValueEntry(Some(w), Some("false"), None);
      EntriesDefaults([e, f]) == Buckets([v], [v], [], [v])
  {
    ProteinNucleotideContexts(contexts);
    ContextsEntryDefaults(Protein, v, contexts, c, w);
    ContextsEntryDefaults(Nucleotide, v, contexts, c, w);
    ContextsEntryDefaults(Vector, v, contexts, c, w);
  }

  /** The lists of two entries are what the first adds followed by what the second adds. */
  lemma EntriesDefaultsPair(ctx: Context, e: ValueEntry, f: ValueEntry)
    ensures EntriesDefaults([e, f]).Get(ctx) == EntryContext(ctx, e) + EntryContext(ctx, f)
    ensures EntriesDefaults([e, f]).generic == EntryGeneric(e) + EntryGeneric(f)
  {
    EntriesDefaultsAppend([e], [f]);
    assert [e] + [f] == [e, f];
    EntriesDefaultsSingle(e);
    EntriesDefaultsSingle(f);
  }

  /** The lists of a single entry are what that entry adds to each. */
  lemma EntriesDefaultsSingle(e: ValueEntry)
    ensures EntriesDefaults([e])
      == Buckets(EntryContext(Protein, e), EntryContext(Nucleotide, e), EntryContext(Vector, e), EntryGeneric(e))
  {
    ContextBucketSingle(Protein, e);
    ContextBucketSingle(Nucleotide, e);
    ContextBucketSingle(Vector, e);
    GenericBucketSingle(e);
  }

  /** A `context` property followed by a `defaultValueContexts` text: the entry goes to the contexts the text names. */
  lemma ContextsEntry(ctx: Context, v: string, contexts: string, c: string)
    ensures var q := Property(Some("context"), Some(c));
      var p := Property(Some("defaultValueContexts"), Some(contexts));
      var e := ValueEntry(Some(v), Some("true"), Some(Properties(Some(PropertyList([q, p])))));
      EntryContext(ctx, e) == (if IsSubstring(ContextName(ctx), contexts) then [v] else [])
  {
    var q := Property(Some("context"), Some(c));
    var p := Property(Some("defaultValueContexts"), Some(contexts));
    assert [q, p][..1] == [q];
    assert PropertiesContext(ctx, [q, p], v)
      == PropertiesContext(ctx, [q], v) + (if MarksContext(p, ctx) then [v] else []);
    assert |q.key.value| != |"defaultValueContexts"|;
    PropertiesSingle(ctx, q, v);
  }

  lemma ContextBucketSingle(ctx: Context, e: ValueEntry)
    ensures ContextBucket(ctx, [e]) == EntryContext(ctx, e)
  {
    CollectSingle(e => EntryContext(ctx, e), e);
  }

  lemma GenericBucketSingle(e: ValueEntry)
    ensures GenericBucket([e]) == EntryGeneric(e)
  {
    CollectSingle(EntryGeneric, e);
  }

  /** The text "proteinnucleotide" names proteins and nucleotides and not vectors. */
  lemma ProteinNucleotideContexts(contexts: string)
    requires contexts == "proteinnucleotide"
    ensures IsSubstring("protein", contexts) && IsSubstring("nucleotide", contexts)
    ensures !IsSubstring("vector", contexts)
  {
    NamesProtein(contexts);
    NamesNucleotide(contexts);
    LacksVector(contexts);
  }

  lemma NamesProtein(contexts: string)
    requires contexts == "proteinnucleotide"
    ensures IsSubstring("protein", contexts)
  {
  }

  lemma NamesNucleotide(contexts: string)
    requires contexts == "proteinnucleotide"
    ensures IsSubstring("nucleotide", contexts)
  {
    assert contexts[7..17] == "nucleotide";
    assert OccursAt("nucleotide", contexts, 7);
    SubstringAt("nucleotide", contexts);
  }

  lemma LacksVector(contexts: string)
    requires forall k :: 0 <= k < |contexts| ==> contexts[k] != 'v'
    ensures !IsSubstring("vector", contexts)
  {
    MissingChar("vector", contexts, 0);
  }

  /** A single property contributes `v` exactly when it marks `ctx`. */
  lemma PropertiesSingle(ctx: Context, p: Property, v: string)
    ensures PropertiesContext(ctx, [p], v) == (if MarksContext(p, ctx) then [v] else [])
  {
  }
}
