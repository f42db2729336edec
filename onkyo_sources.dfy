/**
 * The Onkyo receiver's input sources: the default source table distilled
 * from the receiver library's SLI command table, the restriction of that
 * table to a user's selection, and the one-time migration of the selected
 * sources into the config entry's options.
 *
 * The library's command table is not part of this model: its SLI values
 * are an input, in the table's own order. A Python dict is an ordered list
 * of (key, value) pairs with distinct keys.
 */
module OnkyoSources {
  import opened Wrappers

  /** The key under which both the config data and the options keep the sources. */
  const CONF_SOURCES: string := "sources"

  /** Selector codes that are not inputs a user can pick. */
  const EXCLUDED: seq<string> := ["07", "08", "09", "up", "down", "query"]

  /** The substring removed from every description. */
  const SETS: string := "sets "

  /** An SLI name is a single string or a tuple of aliases, the first of which names the source. */
  datatype SliName = Single(name: string) | Several(first: string, others: seq<string>)

  /** One value of the SLI command table. */
  datatype SliValue = SliValue(name: SliName, description: string)

  type Dict = seq<(string, string)>

  // ---------------------------------------------------------------------
  // Ordered dictionaries

  function Keys(d: Dict): (ks: seq<string>)
    ensures |ks| == |d|
    ensures forall i | 0 <= i < |d| :: ks[i] == d[i].0
  {
    seq(|d|, i requires 0 <= i < |d| => d[i].0)
  }

  predicate DistinctKeys(d: Dict)
  {
    forall i, j | 0 <= i < j < |d| :: d[i].0 != d[j].0
  }

  /** `d.update({k: v})`: an existing key keeps its place and takes the new value; a new key goes last. */
  function Put(d: Dict, k: string, v: string): (r: Dict)
    requires DistinctKeys(d)
    ensures |r| == if k in Keys(d) then |d| else |d| + 1
    ensures forall i | 0 <= i < |d| :: r[i] == if d[i].0 == k then (k, v) else d[i]
    ensures k !in Keys(d) ==> r[|d|] == (k, v)
    decreases |d|
  {
    if |d| == 0 then [(k, v)]
    else if d[0].0 == k then
      assert Keys(d)[0] == k;
      [(k, v)] + d[1..]
    else
      assert k in Keys(d) <==> k in Keys(d[1..]) by {
        assert Keys(d) == [d[0].0] + Keys(d[1..]);
      }
      var rest := Put(d[1..], k, v);
      [d[0]] + rest
  }

  /** Where an entry sits in a dict. */
  function Position(d: Dict, e: (string, string)): (i: nat)
    requires e in d
    ensures i < |d| && d[i] == e
  {
    if d[0] == e then 0 else 1 + Position(d[1..], e)
  }

  /** After `Put` the keys stay distinct, `k` maps to `v`, and every other key keeps its value. */
  lemma PutContents(d: Dict, k: string, v: string)
    requires DistinctKeys(d)
    ensures DistinctKeys(Put(d, k, v))
    ensures Keys(Put(d, k, v)) == if k in Keys(d) then Keys(d) else Keys(d) + [k]
    ensures forall e :: e in Put(d, k, v) <==> if e.0 == k then e == (k, v) else e in d
  {
    PutKeys(d, k, v);
    forall e ensures e in Put(d, k, v) <==> if e.0 == k then e == (k, v) else e in d {
      PutMember(d, k, v, e);
    }
  }

  lemma PutKeys(d: Dict, k: string, v: string)
    requires DistinctKeys(d)
    ensures DistinctKeys(Put(d, k, v))
    ensures Keys(Put(d, k, v)) == if k in Keys(d) then Keys(d) else Keys(d) + [k]
  {
    var r := Put(d, k, v);
    if k in Keys(d) {
      assert forall j | 0 <= j < |d| :: r[j].0 == d[j].0;
      assert Keys(r) == Keys(d);
    } else {
      assert r == d + [(k, v)];
      assert Keys(r) == Keys(d) + [k];
    }
  }

  lemma PutMember(d: Dict, k: string, v: string, e: (string, string))
    requires DistinctKeys(d)
    ensures e in Put(d, k, v) <==> if e.0 == k then e == (k, v) else e in d
  {
    if k in Keys(d) {
      var i :| 0 <= i < |d| && Keys(d)[i] == k;
      PutMemberAt(d, k, v, e, i);
    } else {
      assert Put(d, k, v) == d + [(k, v)];
    }
  }

  lemma PutMemberAt(d: Dict, k: string, v: string, e: (string, string), i: nat)
    requires DistinctKeys(d) && i < |d| && d[i].0 == k
    ensures e in Put(d, k, v) <==> if e.0 == k then e == (k, v) else e in d
  {
    var r := Put(d, k, v);
    assert |r| == |d|;
    assert r[i] == (k, v);
    if e in r {
      var j := Position(r, e);
      if d[j].0 != k {
        assert e == d[j];
      }
    }
    if e.0 != k && e in d {
      var j := Position(d, e);
      assert r[j] == e;
    }
  }

  // ---------------------------------------------------------------------
  // `str.replace("sets ", "")`

  /** Python's `replace(SETS, "")`: scan left to right and drop every non-overlapping occurrence. */
  function RemoveSets(s: string): (r: string)
    ensures |r| <= |s|
    decreases |s|
  {
    if |s| < |SETS| then s
    else if s[..|SETS|] == SETS then RemoveSets(s[|SETS|..])
    else [s[0]] + RemoveSets(s[1..])
  }

  /** `SETS` occurs in `s` at position `i`. */
  predicate OccursAt(s: string, i: int)
  {
    0 <= i && i + |SETS| <= |s| && s[i..i + |SETS|] == SETS
  }

  /** No occurrence of `SETS` starts before position `n`. */
  predicate NoOccurrenceBefore(s: string, n: int)
  {
    forall i | 0 <= i < n :: !OccursAt(s, i)
  }

  /** A description without "sets " is left as it is. */
  lemma {:induction false} RemoveSetsKeepsPlain(s: string)
    requires forall i | 0 <= i < |s| :: !OccursAt(s, i)
    ensures RemoveSets(s) == s
    decreases |s|
  {
    if |s| >= |SETS| {
      assert !OccursAt(s, 0);
      forall i | 0 <= i < |s[1..]| ensures !OccursAt(s[1..], i) {
        assert !OccursAt(s, i + 1);
        if i + |SETS| <= |s[1..]| {
          assert s[1..][i..i + |SETS|] == s[i + 1..i + 1 + |SETS|];
        }
      }
      RemoveSetsKeepsPlain(s[1..]);
      assert s == [s[0]] + s[1..];
    }
  }

  /**
   * The scan removes the first occurrence and carries on after it: when no
   * occurrence starts before position |x|, the text up to it is kept, the
   * occurrence is dropped and the rest is scanned afresh. Together with
   * `RemoveSetsKeepsPlain` this determines the result for every input.
   */
  lemma {:induction false} RemoveSetsDropsFirst(x: string, y: string)
    requires NoOccurrenceBefore(x + SETS + y, |x|)
    ensures RemoveSets(x + SETS + y) == x + RemoveSets(y)
    decreases |x|
  {
    var s := x + SETS + y;
    if |x| == 0 {
      assert s == SETS + y;
      RemoveSetsAtStart(y);
    } else {
      var t := x[1..] + SETS + y;
      assert s[1..] == t;
      RemoveSetsKeepsFirst(s);
      assert NoOccurrenceBefore(t, |x| - 1) by {
        forall i | 0 <= i < |x| - 1 ensures !OccursAt(t, i) {
          OccursAtTail(s, t, i);
          assert !OccursAt(s, i + 1);
        }
      }
      RemoveSetsDropsFirst(x[1..], y);
      var rest := RemoveSets(y);
      assert s[0] == x[0];
      calc {
        RemoveSets(s);
        [x[0]] + RemoveSets(t);
        [x[0]] + (x[1..] + rest);
        ([x[0]] + x[1..]) + rest;
        { assert [x[0]] + x[1..] == x; }
        x + rest;
      }
    }
  }

  /** An occurrence at the start is dropped and the scan goes on after it. */
  lemma RemoveSetsAtStart(y: string)
    ensures RemoveSets(SETS + y) == RemoveSets(y)
  {
    var s := SETS + y;
    assert s[..|SETS|] == SETS;
    assert s[|SETS|..] == y;
  }

  /** Where no occurrence starts, the first character is kept and the scan moves one on. */
  lemma RemoveSetsKeepsFirst(s: string)
    requires |s| >= 1 && !OccursAt(s, 0)
    ensures RemoveSets(s) == [s[0]] + RemoveSets(s[1..])
  {
  }

  /** An occurrence in the tail is an occurrence one place further on in the whole. */
  lemma OccursAtTail(s: string, t: string, i: int)
    requires |s| >= 1 && t == s[1..] && 0 <= i
    ensures OccursAt(t, i) ==> OccursAt(s, i + 1)
  {
    if OccursAt(t, i) {
      assert t[i..i + |SETS|] == s[i + 1..i + 1 + |SETS|];
    }
  }

  /** Each removal takes away a whole occurrence: the length drops by a multiple of five. */
  lemma {:induction false} RemoveSetsDropsWholeOccurrences(s: string)
    ensures (|s| - |RemoveSets(s)|) % |SETS| == 0
    decreases |s|
  {
    if |s| >= |SETS| {
      if s[..|SETS|] == SETS {
        RemoveSetsDropsWholeOccurrences(s[|SETS|..]);
      } else {
        RemoveSetsDropsWholeOccurrences(s[1..]);
      }
    }
  }

  /**
   * A single pass does not remove every "sets " that ends up in the result:
   * removing the inner occurrence of "ssets ets " joins its ends into a new one.
   */
  lemma SinglePassCanLeaveSets()
    ensures RemoveSets("ssets ets ") == "sets "
    ensures OccursAt(RemoveSets("ssets ets "), 0)
  {
    var s := "ssets ets ";
    assert s[..|SETS|][1] != SETS[1];
    assert s[1..] == "sets ets ";
    assert s[1..][..|SETS|] == SETS;
    assert s[1..][|SETS|..] == "ets ";
    assert "ets "[..0] == "";
  }

  // ---------------------------------------------------------------------
  // `default_sources`

  /** The name a source is filed under: the first alias of a tuple. */
  function SourceName(value: SliValue): (name: string)
    ensures value.name.Single? ==> name == value.name.name
    ensures value.name.Several? ==> name == value.name.first
  {
    match value.name
    case Single(n) => n
    case Several(first, _) => first
  }

  predicate Excluded(name: string) { name in EXCLUDED }

  /** One round of the loop: file a value under its name unless the name is excluded. */
  function Step(prior: Dict, value: SliValue): (d: Dict)
    requires DistinctKeys(prior)
    ensures DistinctKeys(d)
    ensures Keys(d) == if Excluded(SourceName(value)) || SourceName(value) in Keys(prior) then Keys(prior) else Keys(prior) + [SourceName(value)]
    ensures forall e | e in d :: e in prior || e == (SourceName(value), RemoveSets(value.description))
    ensures !Excluded(SourceName(value)) ==> (SourceName(value), RemoveSets(value.description)) in d
    ensures forall e | e in prior && e.0 != SourceName(value) :: e in d
  {
    var name := SourceName(value);
    if Excluded(name) then prior
    else
      PutContents(prior, name, RemoveSets(value.description));
      Put(prior, name, RemoveSets(value.description))
  }

  /** The default source table built from the SLI values, as the loop leaves it after as many rounds. */
  function DefaultSourcesOf(values: seq<SliValue>): (d: Dict)
    ensures DistinctKeys(d)
    decreases |values|
  {
    if |values| == 0 then []
    else Step(DefaultSourcesOf(values[..|values| - 1]), values[|values| - 1])
  }

  /** The default table never holds an excluded key. */
  lemma {:induction false} DefaultSourcesExcludes(values: seq<SliValue>)
    ensures forall e | e in DefaultSourcesOf(values) :: !Excluded(e.0)
    decreases |values|
  {
    if |values| > 0 {
      DefaultSourcesExcludes(values[..|values| - 1]);
    }
  }

  /** `default_sources`: walk the SLI values, normalise each, skip the excluded ones and file the rest by name. */
  method DefaultSources(values: seq<SliValue>) returns (sourcesList: Dict)
    ensures sourcesList == DefaultSourcesOf(values)
  {
    sourcesList := [];
    for i := 0 to |values|
      invariant sourcesList == DefaultSourcesOf(values[..i])
    {
      var value := values[i];
      var name := SourceName(value);
      var desc := RemoveSets(value.description);
      assert values[..i + 1][..i] == values[..i];
      if name in EXCLUDED {
        continue;
      }
      PutContents(sourcesList, name, desc);
      sourcesList := Put(sourcesList, name, desc);
    }
    assert values[..|values|] == values;
  }

  /** Some SLI value is filed under `name`. */
  predicate Carries(values: seq<SliValue>, name: string)
  {
    exists i | 0 <= i < |values| :: SourceName(values[i]) == name
  }

  lemma CarriesSnoc(values: seq<SliValue>, name: string)
    requires |values| > 0
    ensures Carries(values, name) <==>
      Carries(values[..|values| - 1], name) || SourceName(values[|values| - 1]) == name
  {
    var init := values[..|values| - 1];
    if Carries(values, name) && SourceName(values[|values| - 1]) != name {
      var i :| 0 <= i < |values| && SourceName(values[i]) == name;
      assert init[i] == values[i];
    }
    if Carries(init, name) {
      var i :| 0 <= i < |init| && SourceName(init[i]) == name;
      assert values[i] == init[i];
    }
  }

  /** A name is a key of the default table exactly when some SLI value carries it and it is not excluded. */
  lemma {:induction false} DefaultSourcesKeys(values: seq<SliValue>, name: string)
    ensures name in Keys(DefaultSourcesOf(values)) <==> !Excluded(name) && Carries(values, name)
    decreases |values|
  {
    if |values| > 0 {
      var n := |values| - 1;
      var init := values[..n];
      var last := values[n];
      DefaultSourcesKeys(init, name);
      CarriesSnoc(values, name);
      var prior := DefaultSourcesOf(init);
      assert DefaultSourcesOf(values) == Step(prior, last);
    } else {
      assert Keys([]) == [];
    }
  }

  /** The description filed under a name is the normalised description of the LAST value carrying it. */
  lemma {:induction false} DefaultSourcesLastWins(values: seq<SliValue>, name: string, i: nat)
    requires i < |values| && SourceName(values[i]) == name && !Excluded(name)
    requires forall j | i < j < |values| :: SourceName(values[j]) != name
    ensures (name, RemoveSets(values[i].description)) in DefaultSourcesOf(values)
    decreases |values|
  {
    var n := |values| - 1;
    var init := values[..n];
    var last := values[n];
    var prior := DefaultSourcesOf(init);
    var entry := (name, RemoveSets(values[i].description));
    assert DefaultSourcesOf(values) == Step(prior, last);
    if i < n {
      assert init[i] == values[i];
      forall j | i < j < n ensures SourceName(init[j]) != name {
        assert init[j] == values[j];
      }
      DefaultSourcesLastWins(init, name, i);
      assert entry in prior && entry.0 != SourceName(last);
    }
  }

  // ---------------------------------------------------------------------
  // `list2dict`

  /** The entries of `d` whose key is among `selected`, in the order of `d`. */
  function Restrict(d: Dict, selected: seq<string>): (r: Dict)
    ensures |r| <= |d|
    decreases |d|
  {
    if |d| == 0 then []
    else
      var prior := Restrict(d[..|d| - 1], selected);
      var e := d[|d| - 1];
      if e.0 in selected then prior + [e] else prior
  }

  /** The restriction keeps exactly the entries whose key is selected. */
  lemma {:induction false} RestrictMembers(d: Dict, selected: seq<string>)
    ensures forall e :: e in Restrict(d, selected) <==> e in d && e.0 in selected
    decreases |d|
  {
    if |d| > 0 {
      var n := |d| - 1;
      RestrictMembers(d[..n], selected);
      assert d == d[..n] + [d[n]];
    }
  }

  /** `a` occurs in `d` strictly before some occurrence of `b`. */
  predicate Precedes(d: Dict, a: (string, string), b: (string, string))
  {
    exists p, q | 0 <= p < q < |d| :: d[p] == a && d[q] == b
  }

  /** The entries of `r` appear in `d` in the same relative order. */
  predicate OrderedIn(r: Dict, d: Dict)
  {
    forall i, j | 0 <= i < j < |r| :: Precedes(d, r[i], r[j])
  }

  /** The restriction keeps the order of `d`: its entries appear in `d` in the same relative order. */
  lemma {:induction false} RestrictKeepsOrder(d: Dict, selected: seq<string>)
    ensures OrderedIn(Restrict(d, selected), d)
    decreases |d|
  {
    if |d| > 0 {
      var n := |d| - 1;
      var init := d[..n];
      RestrictKeepsOrder(init, selected);
      RestrictMembers(init, selected);
      var prior := Restrict(init, selected);
      assert d == init + [d[n]];
      if d[n].0 in selected {
        OrderedSnoc(prior, init, d[n]);
      } else {
        OrderedExtend(prior, init, d[n]);
      }
    }
  }

  /** Appending to the whole keeps an ordered part ordered. */
  lemma OrderedExtend(r: Dict, d: Dict, x: (string, string))
    requires OrderedIn(r, d)
    ensures OrderedIn(r, d + [x])
  {
    var d' := d + [x];
    forall i, j | 0 <= i < j < |r|
      ensures Precedes(d', r[i], r[j])
    {
      assert Precedes(d, r[i], r[j]);
      var p, q :| 0 <= p < q < |d| && d[p] == r[i] && d[q] == r[j];
      assert d'[p] == r[i] && d'[q] == r[j];
    }
  }

  /** Appending the same entry to an ordered part and to the whole keeps the part ordered. */
  lemma OrderedSnoc(r: Dict, d: Dict, x: (string, string))
    requires OrderedIn(r, d)
    requires forall e | e in r :: e in d
    ensures OrderedIn(r + [x], d + [x])
  {
    var r', d' := r + [x], d + [x];
    forall i, j | 0 <= i < j < |r'|
      ensures Precedes(d', r'[i], r'[j])
    {
      if j < |r| {
        assert r'[i] == r[i] && r'[j] == r[j];
        assert Precedes(d, r[i], r[j]);
        var p, q :| 0 <= p < q < |d| && d[p] == r[i] && d[q] == r[j];
        assert d'[p] == r'[i] && d'[q] == r'[j];
      } else {
        assert r'[i] == r[i] && r[i] in r;
        var p := Position(d, r[i]);
        var q := |d|;
        assert 0 <= p < q < |d'| && d'[p] == r'[i] && d'[q] == r'[j];
      }
    }
  }

  /**
   * `list2dict`: the default table restricted to the selected names. Every
   * key is selected and a default source, every value is the default
   * description, and every selected default source is present.
   */
  function ListToDict(values: seq<SliValue>, sources: seq<string>): (r: Dict)
    ensures DistinctKeys(r)
    ensures forall e | e in r :: e.0 in sources && e in DefaultSourcesOf(values)
    ensures forall e | e in DefaultSourcesOf(values) && e.0 in sources :: e in r
  {
    var d := DefaultSourcesOf(values);
    var r := Restrict(d, sources);
    RestrictMembers(d, sources);
    RestrictDistinct(d, sources);
    r
  }

  lemma {:induction false} RestrictDistinct(d: Dict, selected: seq<string>)
    requires DistinctKeys(d)
    ensures DistinctKeys(Restrict(d, selected))
    decreases |d|
  {
    if |d| > 0 {
      var init := d[..|d| - 1];
      assert DistinctKeys(init) by {
        forall i, j | 0 <= i < j < |init| ensures init[i].0 != init[j].0 {
          assert init[i] == d[i] && init[j] == d[j];
        }
      }
      RestrictDistinct(init, selected);
      RestrictMembers(init, selected);
      var prior := Restrict(init, selected);
      forall e | e in prior ensures e.0 != d[|d| - 1].0 {
        var p :| 0 <= p < |init| && init[p] == e;
        assert d[p] == e;
      }
    }
  }

  // ---------------------------------------------------------------------
  // The options migration in `async_setup_entry`

  /** What the config data may hold under `CONF_SOURCES`. */
  datatype Sources = SourceList(names: seq<string>) | SourceDict(entries: Dict)

  /**
   * The options after setting the entry up: empty options are filled with the
   * sources of the config data, a list of names converted to a table, a table
   * kept, and nothing at all becoming an empty table; options that are
   * already set are left alone.
   */
  function MigratedOptions(options: map<string, Sources>, data: Option<Sources>, values: seq<SliValue>): (r: map<string, Sources>)
    ensures options != map[] ==> r == options
    ensures options == map[] ==> r.Keys == {CONF_SOURCES} && r[CONF_SOURCES].SourceDict?
    ensures options == map[] && data.None? ==> r[CONF_SOURCES] == SourceDict([])
    ensures options == map[] && data.Some? && data.value.SourceDict? ==> r[CONF_SOURCES] == data.value
    ensures options == map[] && data.Some? && data.value.SourceList? ==>
      r[CONF_SOURCES] == SourceDict(ListToDict(values, data.value.names))
  {
    if options != map[] then options
    else
      var sources := match data
        case None => SourceDict([])
        case Some(SourceList(names)) => SourceDict(ListToDict(values, names))
        case Some(SourceDict(entries)) => SourceDict(entries);
      map[CONF_SOURCES := sources]
  }

  /** Setting an entry up a second time does not change its options again. */
  lemma MigrationIsIdempotent(options: map<string, Sources>, data: Option<Sources>, values: seq<SliValue>)
    ensures MigratedOptions(MigratedOptions(options, data, values), data, values) == MigratedOptions(options, data, values)
  {
    if options == map[] {
      assert CONF_SOURCES in MigratedOptions(options, data, values);
    }
  }

  /** A config entry: its immutable data's sources and its options. */
  class ConfigEntry {
    const data: Option<Sources>
    var options: map<string, Sources>

    constructor (data: Option<Sources>, options: map<string, Sources>)
      ensures this.data == data && this.options == options
    {
      this.data := data;
      this.options := options;
    }

    /** The migration branch of `async_setup_entry`: fill empty options with the entry's sources. */
    method MigrateOptions(values: seq<SliValue>)
      modifies this
      ensures options == MigratedOptions(old(options), data, values)
    {
      if options == map[] {
        var sources := match data
          case None => SourceDict([])
          case Some(s) => s;
        if sources.SourceList? {
          var table := DefaultSources(values);
          sources := SourceDict(Restrict(table, sources.names));
        }
        options := map[CONF_SOURCES := sources];
      }
    }
  }
}
