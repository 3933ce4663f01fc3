/**
 * The non-empty field list of hourly observations
 * (`getNonEmptyObservationHoraireFields`): from a batch of observation
 * records it keeps the fields that carry data in at least one record,
 * attaches each one's schema description, sorts the data fields by name and
 * puts each quality flag (`q` + name) right behind the field it qualifies;
 * quality flags without such a field come last, sorted.
 *
 * The records arrive as a parameter (the database fetch is outside the
 * model) and the schema's field descriptions arrive as a map.
 */
module ObservationFields {

  import opened Optional
  import opened StringOrder

  // ---------------------------------------------------------------------
  // Data model
  // ---------------------------------------------------------------------

  /** A column value of an observation. Only `null` matters to the
      algorithm; `Undefined` is a property that is missing or set to
      `undefined`, `Scalar` any other value (string, number, boolean, date). */
  datatype Value = Null | Undefined | Scalar(text: string)

  /** One own property of a record. */
  datatype Entry = Entry(key: string, value: Value)

  /** An observation record: its own properties in `Object.keys` order. */
  type Record = seq<Entry>

  /** Field name to the schema's description of that field, `None` when the
      schema field has no description. A name missing from the map has no
      schema field at all. */
  type Metadata = map<string, Option<string>>

  /** One element of the result: `{ field, description }`. */
  datatype FieldDescriptor = FieldDescriptor(field: string, description: Option<string>)

  /** `Object.keys(record)`. */
  function Keys(r: Record): seq<string>
  {
    seq(|r|, i requires 0 <= i < |r| => r[i].key)
  }

  /** The properties of a JavaScript object have distinct names. */
  predicate DistinctKeys(r: Record)
  {
    forall i, j :: 0 <= i < j < |r| ==> r[i].key != r[j].key
  }

  /** `record[field]`: a property that is not there reads as `undefined`. */
  function Get(r: Record, field: string): Value
  {
    if r == [] then Undefined
    else if r[0].key == field then r[0].value
    else Get(r[1..], field)
  }

  /** `records.some(obs => obs[field] !== null)`. */
  predicate HasData(records: seq<Record>, field: string)
  {
    exists i :: 0 <= i < |records| && Get(records[i], field) != Null
  }

  // ---------------------------------------------------------------------
  // Quality flags and the shape of the result
  // ---------------------------------------------------------------------

  /** `field.startsWith('q')`: the name of a quality flag. */
  predicate IsQuality(field: string)
  {
    |field| > 0 && field[0] == 'q'
  }

  /** Some element of `ds` is named `field`. */
  predicate HasField(ds: seq<FieldDescriptor>, field: string)
  {
    exists i :: 0 <= i < |ds| && ds[i].field == field
  }

  /** No two elements of `ds` share a name. */
  ghost predicate DistinctFields(ds: seq<FieldDescriptor>)
  {
    forall i, j :: 0 <= i < j < |ds| ==> ds[i].field != ds[j].field
  }

  /** A quality flag of `ds` whose stripped name is not a data field of `ds`. */
  ghost predicate IsOrphan(ds: seq<FieldDescriptor>, field: string)
  {
    IsQuality(field) && !(!IsQuality(field[1..]) && HasField(ds, field[1..]))
  }

  /** The data fields (names not starting with `q`) are in strictly ascending order. */
  ghost predicate RegularsAscending(ds: seq<FieldDescriptor>)
  {
    forall i, j :: 0 <= i < j < |ds| && !IsQuality(ds[i].field) && !IsQuality(ds[j].field) ==>
      Before(ds[i].field, ds[j].field)
  }

  /** A data field whose quality flag is present is immediately followed by it. */
  ghost predicate QualityFollowsBase(ds: seq<FieldDescriptor>)
  {
    forall i :: 0 <= i < |ds| && !IsQuality(ds[i].field) && HasField(ds, "q" + ds[i].field) ==>
      i + 1 < |ds| && ds[i + 1].field == "q" + ds[i].field
  }

  /** Once an orphan quality flag appears, everything after it is an orphan too. */
  ghost predicate OrphansLast(ds: seq<FieldDescriptor>)
  {
    forall i, j :: 0 <= i < j < |ds| && IsOrphan(ds, ds[i].field) ==> IsOrphan(ds, ds[j].field)
  }

  /** The orphan quality flags are in strictly ascending order. */
  ghost predicate OrphansAscending(ds: seq<FieldDescriptor>)
  {
    forall i, j :: 0 <= i < j < |ds| && IsOrphan(ds, ds[i].field) && IsOrphan(ds, ds[j].field) ==>
      Before(ds[i].field, ds[j].field)
  }

  /** The order the source promises for its result. */
  ghost predicate WellArranged(ds: seq<FieldDescriptor>)
  {
    && DistinctFields(ds)
    && RegularsAscending(ds)
    && QualityFollowsBase(ds)
    && OrphansLast(ds)
    && OrphansAscending(ds)
  }

  /** A finished descriptor carries the description `Description` gives its
      field. */
  ghost predicate DescribedBy(meta: Metadata, d: FieldDescriptor)
  {
    d.description == Description(meta, d.field)
  }

  // ---------------------------------------------------------------------
  // Steps 2 to 4: keep the fields with data, attach descriptions
  // ---------------------------------------------------------------------

  /** `keys.filter(field => records.some(obs => obs[field] !== null))`. */
  function KeepNonEmpty(keys: seq<string>, records: seq<Record>): (kept: seq<string>)
    ensures forall f :: f in kept <==> f in keys && HasData(records, f)
    ensures |kept| <= |keys|
    ensures (forall i, j :: 0 <= i < j < |keys| ==> keys[i] != keys[j]) ==>
              forall i, j :: 0 <= i < j < |kept| ==> kept[i] != kept[j]
  {
    if keys == [] then []
    else
      var rest := KeepNonEmpty(keys[1..], records);
      assert forall f :: f in keys <==> f == keys[0] || f in keys[1..];
      if HasData(records, keys[0]) then [keys[0]] + rest else rest
  }

  /** `fieldDescriptions[field]?.description || null`. */
  function Description(meta: Metadata, field: string): (r: Option<string>)
    ensures r.Some? ==> field in meta && meta[field] == r && r.value != ""
    ensures r == None ==> field !in meta || meta[field] == None || meta[field] == Some("")
  {
    if field in meta && meta[field].Some? && meta[field].value != "" then meta[field] else None
  }

  /** `nonEmptyFields.map(field => ({ field, description }))`. */
  function Describe(meta: Metadata, fields: seq<string>): (ds: seq<FieldDescriptor>)
    ensures |ds| == |fields|
    ensures forall i :: 0 <= i < |ds| ==> ds[i].field == fields[i] && DescribedBy(meta, ds[i])
  {
    seq(|fields|, i requires 0 <= i < |fields| => FieldDescriptor(fields[i], Description(meta, fields[i])))
  }

  // ---------------------------------------------------------------------
  // Sorting by name (`sort((a, b) => a.field.localeCompare(b.field))`)
  // ---------------------------------------------------------------------

  ghost predicate StrictlyAscending(ds: seq<FieldDescriptor>)
  {
    forall i, j :: 0 <= i < j < |ds| ==> Before(ds[i].field, ds[j].field)
  }

  function Insert(d: FieldDescriptor, ds: seq<FieldDescriptor>): seq<FieldDescriptor>
  {
    if ds == [] then [d]
    else if Before(d.field, ds[0].field) then [d] + ds
    else [ds[0]] + Insert(d, ds[1..])
  }

  /** The library sort, modelled as an insertion sort; for distinct names the
      sorted order is unique, so the choice of algorithm does not matter. */
  function SortByField(ds: seq<FieldDescriptor>): seq<FieldDescriptor>
  {
    if ds == [] then [] else Insert(ds[0], SortByField(ds[1..]))
  }

  /** A name before every name of an ascending sequence can go in front. */
  lemma ConsAscending(h: FieldDescriptor, t: seq<FieldDescriptor>)
    requires StrictlyAscending(t)
    requires forall y :: y in t ==> Before(h.field, y.field)
    ensures StrictlyAscending([h] + t)
  {
    var r := [h] + t;
    forall i, j | 0 <= i < j < |r| ensures Before(r[i].field, r[j].field) {
      assert r[j] == t[j - 1];
      if i > 0 {
        assert r[i] == t[i - 1];
      }
    }
  }

  /** Dropping the first element keeps the order, and the first name comes
      before every later one. */
  lemma AscendingTail(ds: seq<FieldDescriptor>)
    requires ds != [] && StrictlyAscending(ds)
    ensures StrictlyAscending(ds[1..])
    ensures forall y :: y in ds[1..] ==> Before(ds[0].field, y.field)
  {
    var t := ds[1..];
    forall y | y in t ensures Before(ds[0].field, y.field) {
      var k :| 0 <= k < |t| && t[k] == y;
      assert ds[k + 1] == y;
    }
    forall i, j | 0 <= i < j < |t| ensures Before(t[i].field, t[j].field) {
      assert t[i] == ds[i + 1] && t[j] == ds[j + 1];
    }
  }

  lemma {:induction false} InsertAscending(d: FieldDescriptor, ds: seq<FieldDescriptor>)
    requires StrictlyAscending(ds)
    requires !HasField(ds, d.field)
    ensures multiset(Insert(d, ds)) == multiset(ds) + multiset{d}
    ensures StrictlyAscending(Insert(d, ds))
  {
    if ds == [] {
    } else if Before(d.field, ds[0].field) {
      forall y | y in ds ensures Before(d.field, y.field) {
        var k :| 0 <= k < |ds| && ds[k] == y;
        if k > 0 {
          BeforeTransitive(d.field, ds[0].field, y.field);
        }
      }
      ConsAscending(d, ds);
    } else {
      var h, t := ds[0], ds[1..];
      assert ds == [h] + t;
      forall k | 0 <= k < |t| ensures t[k].field != d.field {
        assert t[k] == ds[k + 1];
      }
      AscendingTail(ds);
      BeforeConnected(d.field, h.field);
      InsertAscending(d, t);
      var tail := Insert(d, t);
      forall y | y in tail ensures Before(h.field, y.field) {
        assert y in multiset(tail);
      }
      ConsAscending(h, tail);
    }
  }

  /** Sorting keeps exactly the same elements and puts them in strictly
      ascending order of name. */
  lemma {:induction false} SortByFieldSorts(ds: seq<FieldDescriptor>)
    requires DistinctFields(ds)
    ensures multiset(SortByField(ds)) == multiset(ds)
    ensures StrictlyAscending(SortByField(ds))
  {
    if ds != [] {
      assert ds == [ds[0]] + ds[1..];
      SortByFieldSorts(ds[1..]);
      var rest := SortByField(ds[1..]);
      forall k | 0 <= k < |rest| ensures rest[k].field != ds[0].field {
        assert rest[k] in multiset(ds[1..]);
        var m :| 0 <= m < |ds[1..]| && ds[1..][m] == rest[k];
        assert ds[1..][m] == ds[m + 1];
      }
      InsertAscending(ds[0], rest);
    }
  }

  // ---------------------------------------------------------------------
  // Step 5: partition, interleave, append the orphans
  // ---------------------------------------------------------------------

  /** The data fields of `ds` in their order: what `regularFields.push`
      collects. */
  function Regulars(ds: seq<FieldDescriptor>): (rs: seq<FieldDescriptor>)
    ensures forall x :: x in rs <==> x in ds && !IsQuality(x.field)
  {
    if ds == [] then []
    else
      var init, last := ds[..|ds| - 1], ds[|ds| - 1];
      assert ds == init + [last];
      Regulars(init) + (if IsQuality(last.field) then [] else [last])
  }

  /** The quality flags of `ds` in their order: the order in which they are
      first set in `qualityIndicators`. */
  function Qualities(ds: seq<FieldDescriptor>): (qs: seq<FieldDescriptor>)
    ensures forall x :: x in qs <==> x in ds && IsQuality(x.field)
  {
    if ds == [] then []
    else
      var init, last := ds[..|ds| - 1], ds[|ds| - 1];
      assert ds == init + [last];
      Qualities(init) + (if IsQuality(last.field) then [last] else [])
  }

  /** `[...map.values()]` for a `Map` whose keys, in insertion order, are `order`. */
  function ValuesInOrder(order: seq<string>, items: map<string, FieldDescriptor>): seq<FieldDescriptor>
    requires forall k :: k in order ==> k in items
  {
    if order == [] then []
    else ValuesInOrder(order[..|order| - 1], items) + [items[order[|order| - 1]]]
  }

  /** After `qualityIndicators.set` has run over the quality flags of `ds`:
      the map sends each stripped name to its flag, and lists the flags in
      the order they were set. */
  ghost predicate IndexesQualities(ds: seq<FieldDescriptor>, order: seq<string>, items: map<string, FieldDescriptor>)
  {
    && (forall k :: k in order <==> k in items)
    && KeyedFlags(ds, items)
    && ValuesInOrder(order, items) == Qualities(ds)
  }

  /** `items` sends the name of each quality flag of `ds`, without its `q`,
      to a flag of `ds` that has that name. */
  ghost predicate KeyedFlags(ds: seq<FieldDescriptor>, items: map<string, FieldDescriptor>)
  {
    && (forall k :: k in items ==> items[k] in ds && items[k].field == "q" + k)
    && (forall i :: 0 <= i < |ds| && IsQuality(ds[i].field) ==> ds[i].field[1..] in items)
  }

  lemma {:induction false} ValuesInOrderAppend(order: seq<string>, items: map<string, FieldDescriptor>,
                                               key: string, item: FieldDescriptor)
    requires forall k :: k in order ==> k in items
    requires key !in order
    ensures ValuesInOrder(order + [key], items[key := item]) == ValuesInOrder(order, items) + [item]
    decreases |order|
  {
    assert (order + [key])[..|order|] == order;
    ValuesInOrderUnchanged(order, items, key, item);
  }

  lemma {:induction false} ValuesInOrderUnchanged(order: seq<string>, items: map<string, FieldDescriptor>,
                                                  key: string, item: FieldDescriptor)
    requires forall k :: k in order ==> k in items
    requires key !in order
    ensures ValuesInOrder(order, items[key := item]) == ValuesInOrder(order, items)
    decreases |order|
  {
    if order != [] {
      var init := order[..|order| - 1];
      assert forall k :: k in init ==> k in order;
      ValuesInOrderUnchanged(init, items, key, item);
    }
  }

  /** What the `regularFields.forEach` loop emits for one data field: the
      field, then its quality flag when the map holds one. */
  function Emit(r: FieldDescriptor, items: map<string, FieldDescriptor>): seq<FieldDescriptor>
  {
    [r] + (if r.field in items then [items[r.field]] else [])
  }

  /** `sortedFields` after the `regularFields.forEach` loop has run over `regs`. */
  function Interleave(regs: seq<FieldDescriptor>, items: map<string, FieldDescriptor>): seq<FieldDescriptor>
  {
    if regs == [] then []
    else Interleave(regs[..|regs| - 1], items) + Emit(regs[|regs| - 1], items)
  }

  /** `values.filter(q => !emitted.some(item => item.field === q.field))`. */
  function Unemitted(values: seq<FieldDescriptor>, emitted: seq<FieldDescriptor>): (rest: seq<FieldDescriptor>)
    ensures forall x :: x in rest <==> x in values && !HasField(emitted, x.field)
  {
    if values == [] then []
    else
      assert values == [values[0]] + values[1..];
      (if HasField(emitted, values[0].field) then [] else [values[0]]) + Unemitted(values[1..], emitted)
  }

  /** What the source's loops leave behind as the interleaved prefix `p` of
      the result for the sorted data fields `regs` and the quality-flag map
      `items`: its data fields are those of `regs`, in the same ascending
      order; each of its quality flags is the map's entry for a data field of
      `regs`, right behind that field; no name twice. */
  ghost predicate InterleavingOf(p: seq<FieldDescriptor>, regs: seq<FieldDescriptor>, items: map<string, FieldDescriptor>)
  {
    && MembersOf(p, regs, items)
    && FlagsFollow(p, items)
    && RegularsAscending(p)
    && DistinctFields(p)
  }

  /** The elements of `p`: the data fields of `regs` and their entries in `items`. */
  ghost predicate MembersOf(p: seq<FieldDescriptor>, regs: seq<FieldDescriptor>, items: map<string, FieldDescriptor>)
  {
    && (forall k :: 0 <= k < |p| && !IsQuality(p[k].field) ==> p[k] in regs)
    && (forall k :: 0 <= k < |p| && IsQuality(p[k].field) ==>
          p[k].field[1..] in items && items[p[k].field[1..]] == p[k] && HasField(regs, p[k].field[1..]))
    && (forall k :: 0 <= k < |regs| ==> regs[k] in p)
    && (forall k :: 0 <= k < |regs| && regs[k].field in items ==> items[regs[k].field] in p)
  }

  /** In `p`, a data field that has an entry in `items` is followed by that entry. */
  ghost predicate FlagsFollow(p: seq<FieldDescriptor>, items: map<string, FieldDescriptor>)
  {
    forall k :: 0 <= k < |p| && !IsQuality(p[k].field) && p[k].field in items ==>
      k + 1 < |p| && p[k + 1] == items[p[k].field]
  }

  /** The elements of the interleaving. */
  lemma {:induction false} InterleaveMembers(regs: seq<FieldDescriptor>, items: map<string, FieldDescriptor>)
    requires forall x :: x in regs ==> !IsQuality(x.field)
    requires forall k :: k in items ==> items[k].field == "q" + k
    ensures MembersOf(Interleave(regs, items), regs, items)
    decreases |regs|
  {
    if regs != [] {
      var init, last := regs[..|regs| - 1], regs[|regs| - 1];
      assert regs == init + [last];
      assert forall x :: x in init ==> x in regs;
      InterleaveMembers(init, items);
      var p, e := Interleave(init, items), Emit(last, items);
      var s := p + e;
      assert s == Interleave(regs, items);
      forall k | 0 <= k < |s| && !IsQuality(s[k].field) ensures s[k] in regs {
        if k < |p| {
          assert s[k] == p[k];
        } else if k == |p| {
          assert s[k] == last;
        }
      }
      forall k | 0 <= k < |s| && IsQuality(s[k].field)
        ensures s[k].field[1..] in items && items[s[k].field[1..]] == s[k] && HasField(regs, s[k].field[1..])
      {
        if k < |p| {
          assert s[k] == p[k];
          var m :| 0 <= m < |init| && init[m].field == p[k].field[1..];
          assert regs[m] == init[m];
        } else if k == |p| + 1 {
          assert s[k] == items[last.field];
          assert s[k].field[1..] == last.field;
          assert regs[|regs| - 1] == last;
        }
      }
      forall k | 0 <= k < |regs| ensures regs[k] in s {
        if k < |init| {
          assert regs[k] == init[k];
        } else {
          assert s[|p|] == last;
        }
      }
      forall k | 0 <= k < |regs| && regs[k].field in items ensures items[regs[k].field] in s {
        if k < |init| {
          assert regs[k] == init[k];
        } else {
          assert s[|p| + 1] == items[last.field];
        }
      }
    }
  }

  /** In the interleaving, a data field that has a quality flag is followed
      by that flag. */
  lemma {:induction false} InterleaveAdjacent(regs: seq<FieldDescriptor>, items: map<string, FieldDescriptor>)
    requires forall k :: k in items ==> items[k].field == "q" + k
    ensures FlagsFollow(Interleave(regs, items), items)
    decreases |regs|
  {
    if regs != [] {
      var init, last := regs[..|regs| - 1], regs[|regs| - 1];
      InterleaveAdjacent(init, items);
      var p, e := Interleave(init, items), Emit(last, items);
      var s := p + e;
      assert s == Interleave(regs, items);
      assert |e| == (if last.field in items then 2 else 1);
      assert last.field in items ==> e == [last, items[last.field]] && IsQuality(items[last.field].field);
      assert forall k :: |p| < k < |s| ==> IsQuality(s[k].field);
      forall k | 0 <= k < |s| && !IsQuality(s[k].field) && s[k].field in items
        ensures k + 1 < |s| && s[k + 1] == items[s[k].field]
      {
        if k < |p| {
          assert s[k] == p[k];
          assert s[k + 1] == p[k + 1];
        } else if k == |p| {
          assert s[k] == last;
        }
      }
    }
  }

  /** In the interleaving, the data fields keep the ascending order of `regs`. */
  lemma {:induction false} InterleaveAscending(regs: seq<FieldDescriptor>, items: map<string, FieldDescriptor>)
    requires forall x :: x in regs ==> !IsQuality(x.field)
    requires forall k :: k in items ==> items[k].field == "q" + k
    requires StrictlyAscending(regs)
    ensures RegularsAscending(Interleave(regs, items))
    decreases |regs|
  {
    if regs != [] {
      var init, last := regs[..|regs| - 1], regs[|regs| - 1];
      assert regs == init + [last];
      assert forall x :: x in init ==> x in regs;
      AscendingInit(regs);
      InterleaveAscending(init, items);
      InterleaveMembers(init, items);
      var p, e := Interleave(init, items), Emit(last, items);
      var s := p + e;
      assert s == Interleave(regs, items);
      forall k | 0 <= k < |p| && !IsQuality(p[k].field) ensures Before(p[k].field, last.field) {
        assert p[k] in init;
      }
      forall i, j | 0 <= i < j < |s| && !IsQuality(s[i].field) && !IsQuality(s[j].field)
        ensures Before(s[i].field, s[j].field)
      {
        if j < |p| {
          assert s[i] == p[i] && s[j] == p[j];
        } else if j == |p| {
          assert s[i] == p[i] && s[j] == last;
        }
      }
    }
  }

  /** No name occurs twice in the interleaving. */
  lemma {:induction false} InterleaveDistinct(regs: seq<FieldDescriptor>, items: map<string, FieldDescriptor>)
    requires forall x :: x in regs ==> !IsQuality(x.field)
    requires forall k :: k in items ==> items[k].field == "q" + k
    requires StrictlyAscending(regs)
    ensures DistinctFields(Interleave(regs, items))
    decreases |regs|
  {
    if regs != [] {
      var init, last := regs[..|regs| - 1], regs[|regs| - 1];
      assert regs == init + [last];
      assert forall x :: x in init ==> x in regs;
      AscendingInit(regs);
      InterleaveDistinct(init, items);
      InterleaveMembers(init, items);
      var p, e := Interleave(init, items), Emit(last, items);
      assert p + e == Interleave(regs, items);
      EmitApart(init, last, items);
      DistinctAppend(p, e);
    }
  }

  /** Dropping the last element keeps the order, and the last name comes
      after, so differs from, every earlier one. */
  lemma AscendingInit(regs: seq<FieldDescriptor>)
    requires regs != [] && StrictlyAscending(regs)
    ensures StrictlyAscending(regs[..|regs| - 1])
    ensures forall x :: x in regs[..|regs| - 1] ==>
      Before(x.field, regs[|regs| - 1].field) && x.field != regs[|regs| - 1].field
  {
    var init, last := regs[..|regs| - 1], regs[|regs| - 1];
    forall i, j | 0 <= i < j < |init| ensures Before(init[i].field, init[j].field) {
      assert init[i] == regs[i] && init[j] == regs[j];
    }
    forall x | x in init ensures Before(x.field, last.field) && x.field != last.field {
      var m :| 0 <= m < |init| && init[m] == x;
      assert regs[m] == x;
      if x.field == last.field {
        BeforeIrreflexive(last.field);
      }
    }
  }

  /** Filtering keeps names distinct. */
  lemma {:induction false} FiltersDistinct(ds: seq<FieldDescriptor>)
    requires DistinctFields(ds)
    ensures DistinctFields(Regulars(ds)) && DistinctFields(Qualities(ds))
    decreases |ds|
  {
    if ds != [] {
      var init, last := ds[..|ds| - 1], ds[|ds| - 1];
      assert ds == init + [last];
      PrefixNamesDiffer(ds, |ds| - 1);
      assert DistinctFields(init) by {
        forall i, j | 0 <= i < j < |init| ensures init[i].field != init[j].field {
          assert init[i] == ds[i] && init[j] == ds[j];
        }
      }
      FiltersDistinct(init);
      var e := if IsQuality(last.field) then [] else [last];
      var f := if IsQuality(last.field) then [last] else [];
      assert Regulars(ds) == Regulars(init) + e;
      assert Qualities(ds) == Qualities(init) + f;
      DistinctAppend(Regulars(init), e);
      DistinctAppend(Qualities(init), f);
    }
  }

  /** `Unemitted` keeps names distinct. */
  lemma {:induction false} UnemittedDistinct(values: seq<FieldDescriptor>, emitted: seq<FieldDescriptor>)
    requires DistinctFields(values)
    ensures DistinctFields(Unemitted(values, emitted))
    decreases |values|
  {
    if values != [] {
      var h, t := values[0], values[1..];
      assert DistinctFields(t) by {
        forall i, j | 0 <= i < j < |t| ensures t[i].field != t[j].field {
          assert t[i] == values[i + 1] && t[j] == values[j + 1];
        }
      }
      forall y | y in t ensures y.field != h.field {
        var k :| 0 <= k < |t| && t[k] == y;
        assert values[k + 1] == y;
      }
      UnemittedDistinct(t, emitted);
      var e := if HasField(emitted, h.field) then [] else [h];
      DistinctAppend(e, Unemitted(t, emitted));
    }
  }

  /** What one data field emits shares no name with what was emitted for
      the data fields before it, and has no repeated name itself. */
  lemma EmitApart(init: seq<FieldDescriptor>, last: FieldDescriptor, items: map<string, FieldDescriptor>)
    requires forall x :: x in init ==> !IsQuality(x.field) && x.field != last.field
    requires !IsQuality(last.field)
    requires forall k :: k in items ==> items[k].field == "q" + k
    requires MembersOf(Interleave(init, items), init, items)
    ensures DistinctFields(Emit(last, items))
    ensures forall x, y :: x in Interleave(init, items) && y in Emit(last, items) ==> x.field != y.field
  {
    var p, e := Interleave(init, items), Emit(last, items);
    if last.field in items {
      assert items[last.field].field[1..] == last.field;
      assert e == [last, items[last.field]];
    }
    forall x, y | x in p && y in e ensures x.field != y.field {
      var k :| 0 <= k < |p| && p[k] == x;
      if IsQuality(x.field) {
        var m :| 0 <= m < |init| && init[m].field == x.field[1..];
        assert init[m] in init;
      } else {
        assert x in init;
      }
    }
  }

  lemma DistinctAppend(p: seq<FieldDescriptor>, e: seq<FieldDescriptor>)
    requires DistinctFields(p) && DistinctFields(e)
    requires forall x, y :: x in p && y in e ==> x.field != y.field
    ensures DistinctFields(p + e)
  {
    var s := p + e;
    forall i, j | 0 <= i < j < |s| ensures s[i].field != s[j].field {
      if j < |p| {
        assert s[i] == p[i] && s[j] == p[j];
      } else if i < |p| {
        assert s[i] == p[i] && s[j] == e[j - |p|];
      } else {
        assert s[i] == e[i - |p|] && s[j] == e[j - |p|];
      }
    }
  }

  lemma InterleaveIsInterleaving(regs: seq<FieldDescriptor>, items: map<string, FieldDescriptor>)
    requires forall x :: x in regs ==> !IsQuality(x.field)
    requires forall k :: k in items ==> items[k].field == "q" + k
    requires StrictlyAscending(regs)
    ensures InterleavingOf(Interleave(regs, items), regs, items)
  {
    InterleaveMembers(regs, items);
    InterleaveAdjacent(regs, items);
    InterleaveAscending(regs, items);
    InterleaveDistinct(regs, items);
  }

  /** The state the source reaches just before it returns: `regs` holds the
      data fields of `ds`, `items` the quality-flag map built from `ds`, `p`
      the interleaved prefix and `orphans` the sorted flags `p` left out. */
  ghost predicate Assembled(ds: seq<FieldDescriptor>, regs: seq<FieldDescriptor>, items: map<string, FieldDescriptor>,
                            p: seq<FieldDescriptor>, orphans: seq<FieldDescriptor>)
  {
    && DistinctFields(ds)
    && (forall x :: x in regs <==> x in ds && !IsQuality(x.field))
    && (forall k :: k in items ==> items[k] in ds && items[k].field == "q" + k)
    && (forall i :: 0 <= i < |ds| && IsQuality(ds[i].field) ==> ds[i].field[1..] in items)
    && InterleavingOf(p, regs, items)
    && (forall x :: x in orphans <==> x in ds && IsQuality(x.field) && !HasField(p, x.field))
    && StrictlyAscending(orphans)
  }

  /** A name is a data field of the result exactly when it is one of `regs`. */
  lemma ResultDataFields(ds: seq<FieldDescriptor>, regs: seq<FieldDescriptor>, items: map<string, FieldDescriptor>,
                         p: seq<FieldDescriptor>, orphans: seq<FieldDescriptor>)
    requires Assembled(ds, regs, items, p, orphans)
    ensures forall b :: !IsQuality(b) && HasField(p + orphans, b) <==> HasField(regs, b)
  {
    var out := p + orphans;
    forall k | |p| <= k < |out| ensures IsQuality(out[k].field) {
      assert out[k] == orphans[k - |p|] && out[k] in orphans;
    }
    forall b | HasField(regs, b) ensures !IsQuality(b) && HasField(out, b) {
      var k :| 0 <= k < |regs| && regs[k].field == b;
      assert regs[k] in regs;
      var m :| 0 <= m < |p| && p[m] == regs[k];
      assert out[m] == p[m];
    }
    forall b | !IsQuality(b) && HasField(out, b) ensures HasField(regs, b) {
      var k :| 0 <= k < |out| && out[k].field == b;
      assert out[k] == p[k];
      var m :| 0 <= m < |regs| && regs[m] == p[k];
    }
  }

  /** The interleaved prefix holds no orphan and the tail nothing else. */
  lemma ResultOrphans(ds: seq<FieldDescriptor>, regs: seq<FieldDescriptor>, items: map<string, FieldDescriptor>,
                      p: seq<FieldDescriptor>, orphans: seq<FieldDescriptor>)
    requires Assembled(ds, regs, items, p, orphans)
    ensures var out := p + orphans;
      && (forall k :: 0 <= k < |p| ==> !IsOrphan(out, out[k].field))
      && (forall k :: |p| <= k < |out| ==> IsOrphan(out, out[k].field))
  {
    var out := p + orphans;
    ResultDataFields(ds, regs, items, p, orphans);
    forall k | 0 <= k < |p| ensures !IsOrphan(out, out[k].field) {
      assert out[k] == p[k];
    }
    forall m | 0 <= m < |regs| && regs[m].field in items ensures HasField(p, "q" + regs[m].field) {
      var n :| 0 <= n < |p| && p[n] == items[regs[m].field];
    }
    forall k | |p| <= k < |out| ensures IsOrphan(out, out[k].field) {
      var x := out[k];
      assert x == orphans[k - |p|] && x in orphans;
      var i :| 0 <= i < |ds| && ds[i] == x;
      assert x.field == "q" + x.field[1..];
    }
  }

  /** The result holds exactly the elements of `ds`, no name twice. */
  lemma ResultMembers(ds: seq<FieldDescriptor>, regs: seq<FieldDescriptor>, items: map<string, FieldDescriptor>,
                      p: seq<FieldDescriptor>, orphans: seq<FieldDescriptor>)
    requires Assembled(ds, regs, items, p, orphans)
    ensures forall x :: x in p + orphans <==> x in ds
    ensures DistinctFields(p + orphans)
  {
    var out := p + orphans;
    forall k | 0 <= k < |p| ensures p[k] in ds {
      if IsQuality(p[k].field) {
        assert items[p[k].field[1..]] == p[k];
      } else {
        assert p[k] in regs;
      }
    }
    forall x | x in ds ensures x in out {
      if !IsQuality(x.field) {
        assert x in regs;
      } else if HasField(p, x.field) {
        var k :| 0 <= k < |p| && p[k].field == x.field;
        var i :| 0 <= i < |ds| && ds[i] == x;
        var j :| 0 <= j < |ds| && ds[j] == p[k];
        assert ds[i].field == ds[j].field;
      } else {
        assert x in orphans;
      }
    }
    forall i, j | 0 <= i < j < |out| ensures out[i].field != out[j].field {
      if j < |p| {
        assert out[i] == p[i] && out[j] == p[j];
      } else if i >= |p| {
        assert out[i] == orphans[i - |p|] && out[j] == orphans[j - |p|];
        BeforeIrreflexive(out[j].field);
      } else {
        assert out[i] == p[i];
        assert out[j] == orphans[j - |p|] && out[j] in orphans;
      }
    }
  }

  /** In the result, the data fields are those of `p`, in ascending order. */
  lemma ResultAscending(ds: seq<FieldDescriptor>, regs: seq<FieldDescriptor>, items: map<string, FieldDescriptor>,
                        p: seq<FieldDescriptor>, orphans: seq<FieldDescriptor>)
    requires Assembled(ds, regs, items, p, orphans)
    ensures RegularsAscending(p + orphans)
  {
    var out := p + orphans;
    forall k | |p| <= k < |out| ensures IsQuality(out[k].field) {
      assert out[k] == orphans[k - |p|] && out[k] in orphans;
    }
    forall i, j | 0 <= i < j < |out| && !IsQuality(out[i].field) && !IsQuality(out[j].field)
      ensures Before(out[i].field, out[j].field)
    {
      assert out[i] == p[i] && out[j] == p[j];
    }
  }

  /** In the result, a data field whose flag is present is followed by it. */
  lemma ResultAdjacent(ds: seq<FieldDescriptor>, regs: seq<FieldDescriptor>, items: map<string, FieldDescriptor>,
                       p: seq<FieldDescriptor>, orphans: seq<FieldDescriptor>)
    requires Assembled(ds, regs, items, p, orphans)
    ensures QualityFollowsBase(p + orphans)
  {
    var out := p + orphans;
    ResultMembers(ds, regs, items, p, orphans);
    forall k | |p| <= k < |out| ensures IsQuality(out[k].field) {
      assert out[k] == orphans[k - |p|] && out[k] in orphans;
    }
    forall i | 0 <= i < |out| && !IsQuality(out[i].field) && HasField(out, "q" + out[i].field)
      ensures i + 1 < |out| && out[i + 1].field == "q" + out[i].field
    {
      var r := out[i];
      assert r == p[i];
      var k :| 0 <= k < |out| && out[k].field == "q" + r.field;
      assert out[k] in out;
      var m :| 0 <= m < |ds| && ds[m] == out[k];
      assert ds[m].field[1..] == r.field;
      assert p[i + 1] == out[i + 1];
    }
  }

  /** In the result, the orphans come last and in ascending order. */
  lemma ResultOrphansSorted(ds: seq<FieldDescriptor>, regs: seq<FieldDescriptor>, items: map<string, FieldDescriptor>,
                            p: seq<FieldDescriptor>, orphans: seq<FieldDescriptor>)
    requires Assembled(ds, regs, items, p, orphans)
    ensures OrphansLast(p + orphans)
    ensures OrphansAscending(p + orphans)
  {
    var out := p + orphans;
    ResultOrphans(ds, regs, items, p, orphans);
    forall i, j | 0 <= i < j < |out| && IsOrphan(out, out[i].field)
      ensures IsOrphan(out, out[j].field)
    {
      assert i >= |p|;
    }
    forall i, j | 0 <= i < j < |out| && IsOrphan(out, out[i].field) && IsOrphan(out, out[j].field)
      ensures Before(out[i].field, out[j].field)
    {
      assert out[i] == orphans[i - |p|] && out[j] == orphans[j - |p|];
    }
  }

  /** The result is in the promised order. */
  lemma ResultOrder(ds: seq<FieldDescriptor>, regs: seq<FieldDescriptor>, items: map<string, FieldDescriptor>,
                    p: seq<FieldDescriptor>, orphans: seq<FieldDescriptor>)
    requires Assembled(ds, regs, items, p, orphans)
    ensures WellArranged(p + orphans)
  {
    ResultMembers(ds, regs, items, p, orphans);
    ResultAscending(ds, regs, items, p, orphans);
    ResultAdjacent(ds, regs, items, p, orphans);
    ResultOrphansSorted(ds, regs, items, p, orphans);
  }

  // ---------------------------------------------------------------------
  // The arrangement is unique
  // ---------------------------------------------------------------------

  /** Some element of `s` is a data field. */
  predicate HasDataField(s: seq<FieldDescriptor>)
  {
    exists k :: 0 <= k < |s| && !IsQuality(s[k].field)
  }

  /** How many elements of an arranged sequence form its first block: a data
      field and its flag, or a single element. */
  function Block(s: seq<FieldDescriptor>): nat
    requires s != []
  {
    if !IsQuality(s[0].field) && HasField(s, "q" + s[0].field) then 2 else 1
  }

  /** In an arranged sequence, a quality flag that is not an orphan sits
      right behind its data field. */
  lemma PairedFlagsFollow(s: seq<FieldDescriptor>)
    requires WellArranged(s)
    ensures forall k :: 0 <= k < |s| && IsQuality(s[k].field) && !IsOrphan(s, s[k].field) ==>
      1 <= k && s[k - 1].field == s[k].field[1..] && !IsQuality(s[k - 1].field)
  {
    forall k | 0 <= k < |s| && IsQuality(s[k].field) && !IsOrphan(s, s[k].field)
      ensures 1 <= k && s[k - 1].field == s[k].field[1..] && !IsQuality(s[k - 1].field)
    {
      var base := s[k].field[1..];
      var j :| 0 <= j < |s| && s[j].field == base;
      assert s[k].field == "q" + base;
      assert HasField(s, "q" + s[j].field);
      assert s[j + 1].field == s[k].field;
    }
  }

  /** The first element of an arranged sequence is its least data field, or,
      when it has none, its least element. */
  lemma HeadIsLeast(s: seq<FieldDescriptor>)
    requires WellArranged(s) && s != []
    ensures HasDataField(s) ==> !IsQuality(s[0].field)
    ensures HasDataField(s) ==> forall k :: 0 < k < |s| && !IsQuality(s[k].field) ==> Before(s[0].field, s[k].field)
    ensures !HasDataField(s) ==> forall k :: 0 < k < |s| ==> Before(s[0].field, s[k].field)
  {
    PairedFlagsFollow(s);
    if IsQuality(s[0].field) {
      forall k | 0 < k < |s| ensures IsOrphan(s, s[k].field) && Before(s[0].field, s[k].field) {
      }
    }
  }

  /** Two arrangements of the same elements start with the same element. */
  lemma HeadSame(a: seq<FieldDescriptor>, b: seq<FieldDescriptor>)
    requires WellArranged(a) && WellArranged(b) && multiset(a) == multiset(b) && a != []
    ensures b != [] && a[0] == b[0]
  {
    assert a[0] in multiset(b);
    var m :| 0 <= m < |b| && b[m] == a[0];
    assert b[0] in multiset(a);
    var n :| 0 <= n < |a| && a[n] == b[0];
    assert HasDataField(a) <==> HasDataField(b) by {
      if HasDataField(a) {
        var k :| 0 <= k < |a| && !IsQuality(a[k].field);
        assert a[k] in multiset(b);
      }
      if HasDataField(b) {
        var k :| 0 <= k < |b| && !IsQuality(b[k].field);
        assert b[k] in multiset(a);
      }
    }
    HeadIsLeast(a);
    HeadIsLeast(b);
    BeforeAsymmetric(a[0].field, b[0].field);
  }

  /** Two sequences with the same elements hold the same names. */
  lemma SameNames(a: seq<FieldDescriptor>, b: seq<FieldDescriptor>)
    requires multiset(a) == multiset(b)
    ensures forall f :: HasField(a, f) <==> HasField(b, f)
  {
    forall f ensures HasField(a, f) ==> HasField(b, f) {
      if HasField(a, f) {
        var k :| 0 <= k < |a| && a[k].field == f;
        assert a[k] in multiset(b);
      }
    }
    forall f ensures HasField(b, f) ==> HasField(a, f) {
      if HasField(b, f) {
        var k :| 0 <= k < |b| && b[k].field == f;
        assert b[k] in multiset(a);
      }
    }
  }

  /** Two arrangements of the same elements have the same first block. */
  lemma BlockSame(a: seq<FieldDescriptor>, b: seq<FieldDescriptor>)
    requires WellArranged(a) && WellArranged(b) && multiset(a) == multiset(b) && a != []
    ensures b != [] && Block(a) == Block(b) && Block(a) <= |a| && a[..Block(a)] == b[..Block(b)]
  {
    HeadSame(a, b);
    SameNames(a, b);
    if Block(a) == 2 {
      var f := "q" + a[0].field;
      assert a[1].field == f && b[1].field == f;
      assert a[1] in multiset(b);
      var j :| 0 <= j < |b| && b[j] == a[1];
      assert a[..2] == [a[0], a[1]] && b[..2] == [b[0], b[1]];
    } else {
      assert a[..1] == [a[0]] && b[..1] == [b[0]];
    }
  }

  /** Dropping the first block of an arranged sequence leaves every other
      element's orphan status as it was. */
  lemma TailOrphanStatus(s: seq<FieldDescriptor>)
    requires WellArranged(s) && s != []
    ensures Block(s) <= |s|
    ensures forall i :: Block(s) <= i < |s| ==> (IsOrphan(s[Block(s)..], s[i].field) <==> IsOrphan(s, s[i].field))
  {
    forall i | Block(s) <= i < |s| ensures IsOrphan(s[Block(s)..], s[i].field) <==> IsOrphan(s, s[i].field) {
      TailOrphanAt(s, i);
    }
  }

  lemma TailOrphanAt(s: seq<FieldDescriptor>, i: int)
    requires DistinctFields(s) && QualityFollowsBase(s) && s != []
    requires Block(s) <= i < |s|
    ensures IsOrphan(s[Block(s)..], s[i].field) <==> IsOrphan(s, s[i].field)
  {
    var n := Block(s);
    var t := s[n..];
    var f := s[i].field;
    if IsQuality(f) && !IsQuality(f[1..]) {
      assert f == "q" + f[1..];
      assert f[1..] != s[0].field by {
        if !IsQuality(s[0].field) && HasField(s, "q" + s[0].field) {
          assert s[1].field == "q" + s[0].field;
        }
        assert s[i].field == f;
      }
      if n == 2 {
        assert IsQuality(s[1].field);
      }
      if HasField(s, f[1..]) {
        var k :| 0 <= k < |s| && s[k].field == f[1..];
        assert k != 0 && (n == 2 ==> k != 1);
        assert t[k - n] == s[k];
      }
      if HasField(t, f[1..]) {
        var k :| 0 <= k < |t| && t[k].field == f[1..];
        assert s[k + n] == t[k];
      }
    }
  }

  /** Dropping the first block of an arranged sequence leaves an arranged
      sequence. */
  lemma TailArranged(s: seq<FieldDescriptor>)
    requires WellArranged(s) && s != []
    ensures Block(s) <= |s| && WellArranged(s[Block(s)..])
  {
    var n := Block(s);
    var t := s[n..];
    TailOrphanStatus(s);
    assert forall i :: 0 <= i < |t| ==> t[i] == s[i + n];
    forall i | 0 <= i < |t| && !IsQuality(t[i].field) && HasField(t, "q" + t[i].field)
      ensures i + 1 < |t| && t[i + 1].field == "q" + t[i].field
    {
      var k :| 0 <= k < |t| && t[k].field == "q" + t[i].field;
      assert s[k + n] == t[k];
    }
    forall i, j | 0 <= i < j < |t| && IsOrphan(t, t[i].field) ensures IsOrphan(t, t[j].field) {
      assert IsOrphan(s, s[i + n].field);
    }
  }

  /** The promised arrangement of a set of descriptors is unique: two
      arrangements of the same elements are equal. */
  lemma {:induction false} ArrangementUnique(a: seq<FieldDescriptor>, b: seq<FieldDescriptor>)
    requires WellArranged(a) && WellArranged(b) && multiset(a) == multiset(b)
    ensures a == b
    decreases |a|
  {
    if a == [] {
      assert |b| == |multiset(b)| == 0;
    } else {
      BlockSame(a, b);
      var n := Block(a);
      TailArranged(a);
      TailArranged(b);
      SplitAt(a, b, n);
      ArrangementUnique(a[n..], b[n..]);
    }
  }

  /** Two sequences with the same elements and the same first `n` elements
      have tails with the same elements, and are equal when the tails are. */
  lemma SplitAt(a: seq<FieldDescriptor>, b: seq<FieldDescriptor>, n: nat)
    requires n <= |a| && n <= |b| && a[..n] == b[..n] && multiset(a) == multiset(b)
    ensures multiset(a[n..]) == multiset(b[n..])
    ensures a[n..] == b[n..] ==> a == b
  {
    assert a == a[..n] + a[n..] && b == b[..n] + b[n..];
    assert multiset(a) == multiset(a[..n]) + multiset(a[n..]);
    assert multiset(b) == multiset(b[..n]) + multiset(b[n..]);
    forall x ensures multiset(a[n..])[x] == multiset(b[n..])[x] {
      assert multiset(a)[x] == multiset(a[..n])[x] + multiset(a[n..])[x];
      assert multiset(b)[x] == multiset(b[..n])[x] + multiset(b[n..])[x];
    }
  }

  /** Without repeated names, a list holds each of its elements once. */
  lemma {:induction false} DistinctCount(s: seq<FieldDescriptor>, x: FieldDescriptor)
    requires DistinctFields(s)
    ensures multiset(s)[x] == if x in s then 1 else 0
  {
    if s != [] {
      assert s == [s[0]] + s[1..];
      forall k | 0 <= k < |s[1..]| ensures s[1..][k].field != s[0].field {
        assert s[1..][k] == s[k + 1];
      }
      DistinctCount(s[1..], x);
    }
  }

  /** Two lists without repeated names and with the same elements are
      permutations of each other. */
  lemma SameElementsPermutation(a: seq<FieldDescriptor>, b: seq<FieldDescriptor>)
    requires DistinctFields(a) && DistinctFields(b)
    requires forall x :: x in a <==> x in b
    ensures multiset(a) == multiset(b)
  {
    forall x ensures multiset(a)[x] == multiset(b)[x] {
      DistinctCount(a, x);
      DistinctCount(b, x);
    }
  }

  // ---------------------------------------------------------------------
  // The operation
  // ---------------------------------------------------------------------

  /** A data field leaves the quality-flag map as it is. */
  lemma IndexRegularStep(ds: seq<FieldDescriptor>, order: seq<string>, items: map<string, FieldDescriptor>,
                         x: FieldDescriptor)
    requires IndexesQualities(ds, order, items)
    requires !IsQuality(x.field)
    ensures IndexesQualities(ds + [x], order, items)
  {
    KeyedFlagsRegular(ds, items, x);
    assert (ds + [x])[..|ds|] == ds;
  }

  lemma KeyedFlagsRegular(ds: seq<FieldDescriptor>, items: map<string, FieldDescriptor>, x: FieldDescriptor)
    requires KeyedFlags(ds, items)
    requires !IsQuality(x.field)
    ensures KeyedFlags(ds + [x], items)
  {
    var ds' := ds + [x];
    forall i | 0 <= i < |ds'| && IsQuality(ds'[i].field) ensures ds'[i].field[1..] in items {
      assert ds'[i] == ds[i];
    }
    assert forall y :: y in ds ==> y in ds';
  }

  /** The elements before position `i` of a sequence with distinct names are
      named unlike the element at `i`. */
  lemma PrefixNamesDiffer(ds: seq<FieldDescriptor>, i: int)
    requires DistinctFields(ds)
    requires 0 <= i < |ds|
    ensures forall y :: y in ds[..i] ==> y.field != ds[i].field
  {
    forall y | y in ds[..i] ensures y.field != ds[i].field {
      var j :| 0 <= j < i && ds[..i][j] == y;
      assert ds[j] == y;
    }
  }

  /** A quality flag whose name is new goes into the map under its name
      without the `q`, and that key is new too. */
  lemma IndexQualityStep(ds: seq<FieldDescriptor>, order: seq<string>, items: map<string, FieldDescriptor>,
                         x: FieldDescriptor)
    requires IndexesQualities(ds, order, items)
    requires IsQuality(x.field)
    requires forall y :: y in ds ==> y.field != x.field
    ensures x.field[1..] !in items
    ensures IndexesQualities(ds + [x], order + [x.field[1..]], items[x.field[1..] := x])
  {
    var key := x.field[1..];
    KeyedFlagsQuality(ds, items, x);
    var ds' := ds + [x];
    assert ds'[..|ds|] == ds;
    assert Qualities(ds') == Qualities(ds) + [x];
    ValuesInOrderAppend(order, items, key, x);
  }

  lemma KeyedFlagsQuality(ds: seq<FieldDescriptor>, items: map<string, FieldDescriptor>, x: FieldDescriptor)
    requires KeyedFlags(ds, items)
    requires IsQuality(x.field)
    requires forall y :: y in ds ==> y.field != x.field
    ensures x.field[1..] !in items
    ensures KeyedFlags(ds + [x], items[x.field[1..] := x])
  {
    var key := x.field[1..];
    assert x.field == "q" + key;
    var ds', items' := ds + [x], items[key := x];
    forall k | k in items' ensures items'[k] in ds' && items'[k].field == "q" + k {
      if k != key {
        assert items[k] in ds;
      }
    }
    forall i | 0 <= i < |ds'| && IsQuality(ds'[i].field) ensures ds'[i].field[1..] in items' {
      if i < |ds| {
        assert ds'[i] == ds[i];
      }
    }
  }

  /** Extending a prefix by one element. */
  lemma PrefixStep(ds: seq<FieldDescriptor>, i: int)
    requires 0 <= i < |ds|
    ensures ds[..i + 1] == ds[..i] + [ds[i]]
  {
  }

  lemma RegularsAppend(ds: seq<FieldDescriptor>, x: FieldDescriptor)
    ensures Regulars(ds + [x]) == Regulars(ds) + (if IsQuality(x.field) then [] else [x])
  {
    assert (ds + [x])[..|ds|] == ds;
  }

  /** The `mappedFields.forEach` loop: data fields go to `regularFields` in
      their order, each quality flag into the `qualityIndicators` map under
      its name without the `q`. */
  method PartitionFields(mappedFields: seq<FieldDescriptor>)
    returns (regularFields: seq<FieldDescriptor>, qualityIndicators: map<string, FieldDescriptor>,
             qualityOrder: seq<string>)
    requires DistinctFields(mappedFields)
    ensures regularFields == Regulars(mappedFields)
    ensures IndexesQualities(mappedFields, qualityOrder, qualityIndicators)
  {
    regularFields, qualityIndicators, qualityOrder := [], map[], [];
    for i := 0 to |mappedFields|
      invariant regularFields == Regulars(mappedFields[..i])
      invariant IndexesQualities(mappedFields[..i], qualityOrder, qualityIndicators)
    {
      var item := mappedFields[i];
      PrefixStep(mappedFields, i);
      RegularsAppend(mappedFields[..i], item);
      if IsQuality(item.field) {
        var key := item.field[1..];
        PrefixNamesDiffer(mappedFields, i);
        IndexQualityStep(mappedFields[..i], qualityOrder, qualityIndicators, item);
        if key !in qualityIndicators {
          qualityOrder := qualityOrder + [key];
        }
        qualityIndicators := qualityIndicators[key := item];
      } else {
        IndexRegularStep(mappedFields[..i], qualityOrder, qualityIndicators, item);
        regularFields := regularFields + [item];
      }
    }
    assert mappedFields[..|mappedFields|] == mappedFields;
  }

  /** The `regularFields.forEach` loop: each data field, in the order given,
      followed by its quality flag when the map holds one. */
  method MergeQualityFlags(regularFields: seq<FieldDescriptor>, qualityIndicators: map<string, FieldDescriptor>)
    returns (sortedFields: seq<FieldDescriptor>)
    requires forall x :: x in regularFields ==> !IsQuality(x.field)
    requires forall k :: k in qualityIndicators ==> qualityIndicators[k].field == "q" + k
    requires StrictlyAscending(regularFields)
    ensures InterleavingOf(sortedFields, regularFields, qualityIndicators)
  {
    sortedFields := [];
    for j := 0 to |regularFields|
      invariant sortedFields == Interleave(regularFields[..j], qualityIndicators)
    {
      var fieldItem := regularFields[j];
      assert regularFields[..j + 1][..j] == regularFields[..j];
      sortedFields := sortedFields + [fieldItem];
      if fieldItem.field in qualityIndicators {
        sortedFields := sortedFields + [qualityIndicators[fieldItem.field]];
      }
    }
    assert regularFields[..|regularFields|] == regularFields;
    InterleaveIsInterleaving(regularFields, qualityIndicators);
  }

  /** What the partition hands on: the sorted data fields and the map meet
      the requirements of the merge loop, and the map's values have distinct
      names. */
  lemma SortedParts(ds: seq<FieldDescriptor>, regs: seq<FieldDescriptor>, order: seq<string>,
                    items: map<string, FieldDescriptor>)
    requires DistinctFields(ds)
    requires regs == Regulars(ds)
    requires IndexesQualities(ds, order, items)
    ensures multiset(SortByField(regs)) == multiset(regs)
    ensures forall x :: x in SortByField(regs) ==> !IsQuality(x.field)
    ensures StrictlyAscending(SortByField(regs))
    ensures forall k :: k in items ==> items[k].field == "q" + k
    ensures DistinctFields(ValuesInOrder(order, items))
  {
    FiltersDistinct(ds);
    SortByFieldSorts(regs);
    forall x | x in SortByField(regs) ensures !IsQuality(x.field) {
      assert x in multiset(SortByField(regs));
      assert x in regs;
    }
    assert ValuesInOrder(order, items) == Qualities(ds);
  }

  /** The facts the three steps establish are the hypotheses of the result lemmas. */
  lemma StepsAssemble(ds: seq<FieldDescriptor>, order: seq<string>, items: map<string, FieldDescriptor>,
                      regs: seq<FieldDescriptor>, p: seq<FieldDescriptor>, orphans: seq<FieldDescriptor>)
    requires DistinctFields(ds)
    requires IndexesQualities(ds, order, items)
    requires multiset(regs) == multiset(Regulars(ds))
    requires InterleavingOf(p, regs, items)
    requires multiset(orphans) == multiset(Unemitted(ValuesInOrder(order, items), p))
    requires StrictlyAscending(orphans)
    ensures Assembled(ds, regs, items, p, orphans)
  {
    forall x ensures x in regs <==> x in ds && !IsQuality(x.field) {
      assert x in regs <==> x in multiset(Regulars(ds));
    }
    var vs := ValuesInOrder(order, items);
    assert vs == Qualities(ds);
    forall x ensures x in orphans <==> x in ds && IsQuality(x.field) && !HasField(p, x.field) {
      assert x in orphans <==> x in multiset(Unemitted(vs, p));
    }
  }

  /** Step 5 of the source: split the described fields into data fields and
      quality flags, sort the data fields, emit each followed by its flag,
      then append the flags nobody claimed, sorted. The result is a
      permutation of the input in the promised arrangement. */
  method OrderFields(mappedFields: seq<FieldDescriptor>) returns (sortedFields: seq<FieldDescriptor>)
    requires DistinctFields(mappedFields)
    ensures multiset(sortedFields) == multiset(mappedFields)
    ensures WellArranged(sortedFields)
  {
    var regularFields, qualityIndicators, qualityOrder := PartitionFields(mappedFields);
    SortedParts(mappedFields, regularFields, qualityOrder, qualityIndicators);
    regularFields := SortByField(regularFields);
    sortedFields := MergeQualityFlags(regularFields, qualityIndicators);
    var remainingQualityFields := Unemitted(ValuesInOrder(qualityOrder, qualityIndicators), sortedFields);
    UnemittedDistinct(ValuesInOrder(qualityOrder, qualityIndicators), sortedFields);
    SortByFieldSorts(remainingQualityFields);
    var orphans := SortByField(remainingQualityFields);
    StepsAssemble(mappedFields, qualityOrder, qualityIndicators, regularFields, sortedFields, orphans);
    ResultMembers(mappedFields, regularFields, qualityIndicators, sortedFields, orphans);
    ResultOrder(mappedFields, regularFields, qualityIndicators, sortedFields, orphans);
    SameElementsPermutation(sortedFields + orphans, mappedFields);
    sortedFields := sortedFields + orphans;
  }

  /** `getNonEmptyObservationHoraireFields` on already fetched records: the
      fields of the first record that carry data somewhere, each once, with
      its description, in the promised arrangement. */
  method NonEmptyObservationFields(records: seq<Record>, meta: Metadata) returns (fields: seq<FieldDescriptor>)
    requires records != [] ==> DistinctKeys(records[0])
    ensures records == [] ==> fields == []
    ensures forall f :: HasField(fields, f) <==> records != [] && f in Keys(records[0]) && HasData(records, f)
    ensures forall i :: 0 <= i < |fields| ==> DescribedBy(meta, fields[i])
    ensures records != [] ==> multiset(fields) == multiset(Describe(meta, KeepNonEmpty(Keys(records[0]), records)))
    ensures WellArranged(fields)
  {
    if |records| == 0 {
      return [];
    }
    var nonEmptyFields := KeepNonEmpty(Keys(records[0]), records);
    var mappedFields := Describe(meta, nonEmptyFields);
    fields := OrderFields(mappedFields);
    forall f ensures HasField(fields, f) <==> HasField(mappedFields, f) {
      if HasField(fields, f) {
        var i :| 0 <= i < |fields| && fields[i].field == f;
        assert fields[i] in multiset(mappedFields);
      }
      if HasField(mappedFields, f) {
        var i :| 0 <= i < |mappedFields| && mappedFields[i].field == f;
        assert mappedFields[i] in multiset(fields);
      }
    }
    forall f ensures HasField(mappedFields, f) <==> f in nonEmptyFields {
      if f in nonEmptyFields {
        var i :| 0 <= i < |nonEmptyFields| && nonEmptyFields[i] == f;
        assert mappedFields[i].field == f;
      }
    }
    forall i | 0 <= i < |fields| ensures DescribedBy(meta, fields[i]) {
      assert fields[i] in multiset(mappedFields);
    }
  }

  // ---------------------------------------------------------------------
  // Two worked cases
  // ---------------------------------------------------------------------

  lemma TemperatureKept(records: seq<Record>)
    requires records == [[Entry("t", Scalar("5")), Entry("qt", Scalar("1")), Entry("alti", Null)],
                         [Entry("t", Scalar("7")), Entry("qt", Scalar("1")), Entry("alti", Null)]]
    ensures Keys(records[0]) == ["t", "qt", "alti"] && DistinctKeys(records[0])
    ensures KeepNonEmpty(Keys(records[0]), records) == ["t", "qt"]
  {
    assert Keys(records[0]) == ["t", "qt", "alti"];
    assert Get(records[0], "t") != Null;
    assert Get(records[0], "qt") != Null;
    assert !HasData(records, "alti") by {
      forall i | 0 <= i < |records| ensures Get(records[i], "alti") == Null {
        assert i == 0 || i == 1;
      }
    }
    var keys := ["t", "qt", "alti"];
    assert keys[1..] == ["qt", "alti"] && keys[1..][1..] == ["alti"] && keys[1..][1..][1..] == [];
    assert KeepNonEmpty(["alti"], records) == [];
    assert KeepNonEmpty(["qt", "alti"], records) == ["qt"];
  }

  /** A data field followed by its flag is arranged. */
  lemma PairArranged(x: FieldDescriptor, y: FieldDescriptor)
    requires x.field == "t" && y.field == "qt"
    ensures WellArranged([x, y])
  {
    var s := [x, y];
    assert "qt"[1..] == "t";
    assert !IsOrphan(s, y.field) by {
      assert s[0].field == "t";
    }
  }

  /** Two records `{t: 5, qt: 1, alti: null}` and `{t: 7, qt: 1, alti: null}`:
      the all-`null` `alti` is dropped and `qt` follows `t`. */
  method TemperatureExample() returns (fields: seq<FieldDescriptor>)
    ensures fields == [FieldDescriptor("t", Some("temperature")), FieldDescriptor("qt", Some("temp quality"))]
  {
    var records := [[Entry("t", Scalar("5")), Entry("qt", Scalar("1")), Entry("alti", Null)],
                    [Entry("t", Scalar("7")), Entry("qt", Scalar("1")), Entry("alti", Null)]];
    var meta: Metadata := map["t" := Some("temperature"), "qt" := Some("temp quality"), "alti" := Some("altitude")];
    TemperatureKept(records);
    var expected := [FieldDescriptor("t", Some("temperature")), FieldDescriptor("qt", Some("temp quality"))];
    assert Describe(meta, ["t", "qt"]) == expected;
    PairArranged(expected[0], expected[1]);
    fields := NonEmptyObservationFields(records, meta);
    ArrangementUnique(fields, expected);
  }

  lemma OrphanKept(records: seq<Record>, meta: Metadata, expected: seq<FieldDescriptor>)
    requires records == [[Entry("qfoo", Scalar("2")), Entry("qt", Scalar("1")), Entry("t", Scalar("5"))]]
    requires meta == map[]
    requires expected == [FieldDescriptor("t", None), FieldDescriptor("qt", None), FieldDescriptor("qfoo", None)]
    ensures DistinctKeys(records[0])
    ensures multiset(Describe(meta, KeepNonEmpty(Keys(records[0]), records))) == multiset(expected)
  {
    var keys := ["qfoo", "qt", "t"];
    OrphanKeys(records, keys);
    OrphanDescribed(meta, keys, expected);
  }

  /** Every property of the single record holds data. */
  lemma OrphanKeys(records: seq<Record>, keys: seq<string>)
    requires records == [[Entry("qfoo", Scalar("2")), Entry("qt", Scalar("1")), Entry("t", Scalar("5"))]]
    requires keys == ["qfoo", "qt", "t"]
    ensures Keys(records[0]) == keys && DistinctKeys(records[0])
    ensures KeepNonEmpty(keys, records) == keys
  {
    assert Keys(records[0]) == keys;
    assert Get(records[0], "qfoo") != Null;
    assert Get(records[0], "qt") != Null;
    assert Get(records[0], "t") != Null;
    assert keys[1..] == ["qt", "t"] && keys[1..][1..] == ["t"] && keys[1..][1..][1..] == [];
    assert KeepNonEmpty(["t"], records) == ["t"];
    assert KeepNonEmpty(["qt", "t"], records) == ["qt", "t"];
  }

  /** Without metadata the three fields are described by `null`. */
  lemma OrphanDescribed(meta: Metadata, keys: seq<string>, expected: seq<FieldDescriptor>)
    requires meta == map[] && keys == ["qfoo", "qt", "t"]
    requires expected == [FieldDescriptor("t", None), FieldDescriptor("qt", None), FieldDescriptor("qfoo", None)]
    ensures multiset(Describe(meta, keys)) == multiset(expected)
  {
    assert Describe(meta, keys) == [expected[2], expected[1], expected[0]];
    ReversedThree(expected[0], expected[1], expected[2]);
  }

  lemma ReversedThree(a: FieldDescriptor, b: FieldDescriptor, c: FieldDescriptor)
    ensures multiset([c, b, a]) == multiset([a, b, c])
  {
    assert [c, b, a] == [c] + [b] + [a] && [a, b, c] == [a] + [b] + [c];
  }

  /** A pair followed by an orphan flag is arranged. */
  lemma PairThenOrphanArranged(x: FieldDescriptor, y: FieldDescriptor, z: FieldDescriptor)
    requires x.field == "t" && y.field == "qt" && z.field == "qfoo"
    ensures WellArranged([x, y, z])
  {
    var s := [x, y, z];
    assert "qt"[1..] == "t" && "qfoo"[1..] == "foo";
    assert !HasField(s, "foo");
    assert HasField(s, "t") by {
      assert s[0].field == "t";
    }
    assert Before("t", "qt") == false;
    assert "q" + "t" == "qt";
  }

  /** A quality flag `qfoo` without a `foo` field goes to the tail, after the
      pair `t`, `qt`. */
  method OrphanExample() returns (fields: seq<FieldDescriptor>)
    ensures fields == [FieldDescriptor("t", None), FieldDescriptor("qt", None), FieldDescriptor("qfoo", None)]
  {
    var records := [[Entry("qfoo", Scalar("2")), Entry("qt", Scalar("1")), Entry("t", Scalar("5"))]];
    var meta: Metadata := map[];
    var expected := [FieldDescriptor("t", None), FieldDescriptor("qt", None), FieldDescriptor("qfoo", None)];
    OrphanKept(records, meta, expected);
    PairThenOrphanArranged(expected[0], expected[1], expected[2]);
    fields := NonEmptyObservationFields(records, meta);
    ArrangementUnique(fields, expected);
  }
}
