/** What survives a pack-then-create round trip through the data container
    format, and where looking sub-spaces up in the top-level action space
    loses or rejects an action. */
module GymRoundTrip {
  import opened Common
  import opened PyDict
  import opened GymSpaces

  /** Whether action `a` has the shape `space` asks for, where (as in
      packing) a tuple's and a dict's sub-spaces are those of `top`. A tuple
      action may be shorter than `top`'s sub-space list (zipping truncates),
      and a dict action has distinct keys, all of them in `top`. */
  predicate Fits(a: Value, space: Space, top: Space)
    decreases a
  {
    match space
    case Discrete(_) => a.IntV?
    case Box(_, _, _, _) => a.ArrayV?
    case TupleS(_) =>
      && top.TupleS? && a.TupleV? && |a.items| <= |top.spaces|
      && forall i :: 0 <= i < |a.items| ==> Fits(a.items[i], top.spaces[i], top)
    case DictS(_) =>
      && top.DictS? && a.DictV? && UniqueKeys(a.entries)
      && forall i :: 0 <= i < |a.entries| ==> EntryFits(a.entries[i], top, a)
    case NoSpace => a == NoneV
  }

  predicate EntryFits(entry: (string, Value), top: Space, ghost parent: Value)
    requires top.DictS? && entry.1 < parent
    decreases parent, 0
  {
    && entry.0 in Keys(top.entries)
    && Fits(entry.1, Get(top.entries, entry.0).value, top)
  }

  /** A box action comes back element for element, whatever the element
      type: the field it is packed into is the one it is read back from. */
  lemma BoxRoundTrip(xs: seq<real>, dtype: string)
    ensures BoxField(PackBox(xs, dtype)) == xs
    ensures CreateData(Container("", PackBox(xs, dtype))) == ArrayV(xs)
  {
  }

  /** Every action that fits the action space is packed without error and
      `_create_data` rebuilds it exactly: integers, arrays, tuples in order,
      dicts with their keys and values. */
  lemma {:induction false} PackCreateRoundTrip(a: Value, space: Space, top: Space)
    requires Fits(a, space, top)
    ensures PackData(a, space, top).Success?
    ensures CreateData(PackData(a, space, top).value) == a
    decreases a
  {
    match space
    case Discrete(_) =>
    case Box(_, _, _, dtype) => BoxRoundTrip(a.elems, dtype);
    case TupleS(_) => TupleRoundTrip(a, space, top);
    case DictS(_) => DictRoundTrip(a, space, top);
    case NoSpace =>
  }

  lemma {:induction false} TupleRoundTrip(a: Value, space: Space, top: Space)
    requires space.TupleS? && Fits(a, space, top)
    ensures PackData(a, space, top).Success?
    ensures CreateData(PackData(a, space, top).value) == a
    decreases a, 0
  {
    var items := a.items;
    var n := |items|;
    assert Min(n, SubSpaceCount(top)) == n;
    assert items[..n] == items;
    var rs := PackItems(items, top, a);
    forall i | 0 <= i < n
      ensures rs[i].Success? && CreateData(rs[i].value) == items[i]
    {
      PackCreateRoundTrip(items[i], top.spaces[i], top);
    }
    var cs := Collect(rs).value;
    assert PackData(a, space, top) == Success(Container("", TupleP(cs)));
    var back := CreateData(Container("", TupleP(cs)));
    assert back.items == items;
  }

  lemma {:induction false} DictRoundTrip(a: Value, space: Space, top: Space)
    requires space.DictS? && Fits(a, space, top)
    ensures PackData(a, space, top).Success?
    ensures CreateData(PackData(a, space, top).value) == a
    decreases a, 0
  {
    var es := a.entries;
    var rs := PackEntries(es, top, a);
    forall i | 0 <= i < |es|
      ensures rs[i].Success? && rs[i].value.name == es[i].0 && CreateData(rs[i].value) == es[i].1
    {
      assert EntryFits(es[i], top, a);
      var sub := Get(top.entries, es[i].0).value;
      PackCreateRoundTrip(es[i].1, sub, top);
      var c := PackData(es[i].1, sub, top).value;
      assert rs[i] == Success(c.(name := es[i].0));
      assert CreateData(c.(name := es[i].0)) == CreateData(c);
    }
    var cs := Collect(rs).value;
    var whole := Container("", DictP(cs));
    assert PackData(a, space, top) == Success(whole);
    assert NamedData(cs, whole) == es;
    FromPairsUnique(es);
  }

  /** A tuple nested in a tuple cannot be packed: its elements are zipped
      with the top-level sub-spaces again, so here the inner integer meets
      a tuple space. */
  lemma NestedTupleRejected()
    ensures var top := TupleS([TupleS([Discrete(4)]), Discrete(4)]);
            PackData(TupleV([TupleV([IntV(1)]), IntV(2)]), top, top) == Failure(WrongActionShape)
  {
    var top := TupleS([TupleS([Discrete(4)]), Discrete(4)]);
    var inner := TupleV([IntV(1)]);
    assert PackData(IntV(1), top.spaces[0], top) == Failure(WrongActionShape);
    assert PackData(inner, top.spaces[0], top) == Failure(WrongActionShape);
  }

  /** A tuple inside a dict packs, but its items are zipped against the
      top-level dict's keys instead of sub-spaces, so each item is sent as a
      container nobody filled in, and the action is not read back. */
  lemma TupleInDictLosesItems()
    ensures var top := DictS([("a", TupleS([Discrete(4)]))]);
            var r := PackData(DictV([("a", TupleV([IntV(3)]))]), top, top);
            && r == Success(Container("", DictP([Container("a", TupleP([Container("", UnknownP)]))])))
            && CreateData(r.value) != DictV([("a", TupleV([IntV(3)]))])
  {
    var top := DictS([("a", TupleS([Discrete(4)]))]);
    var c := Container("", TupleP([Container("", UnknownP)]));
    var t := TupleV([IntV(3)]);
    assert SubSpaceCount(top) == 1 && t.items[..1] == t.items;
    var rs := PackItems(t.items, top, t);
    assert rs == [Success(Container("", UnknownP))];
    var col := Collect(rs);
    assert col.Success? && |col.value| == 1 && col.value[0] == rs[0].value;
    assert col.value == [Container("", UnknownP)];
    assert Collect(rs) == Success([Container("", UnknownP)]);
    assert PackData(t, TupleS([Discrete(4)]), top) == Success(c);
    var whole := Container("", DictP([c.(name := "a")]));
    var d := DictV([("a", t)]);
    assert Get(top.entries, "a") == Some(TupleS([Discrete(4)]));
    var es := PackEntries(d.entries, top, d);
    assert es == [Success(c.(name := "a"))];
    var col2 := Collect(es);
    assert col2.Success? && |col2.value| == 1 && col2.value[0] == es[0].value;
    assert col2.value == [c.(name := "a")];
    assert Collect(es) == Success([c.(name := "a")]);
    assert PackData(DictV([("a", TupleV([IntV(3)]))]), top, top) == Success(whole);
    assert CreateData(c) == TupleV([NoneV]);
    assert NamedData([c.(name := "a")], whole) == [("a", TupleV([NoneV]))];
  }

  /** A dict action with a key the action space lacks is rejected. */
  lemma {:induction false} MissingKeyRejected(a: Value, space: Space, top: Space, j: nat)
    requires space.DictS? && a.DictV? && top.DictS?
    requires j < |a.entries| && a.entries[j].0 !in Keys(top.entries)
    ensures PackData(a, space, top).Failure?
  {
    var es := a.entries;
    var rs := PackEntries(es, top, a);
    assert rs[j].Failure?;
  }

  /** A box described as DOUBLE becomes a float64 space and is packed back
      under the FLOAT tag; every other tag packs as itself. */
  lemma DescribedBoxTag(t: DtypeTag)
    ensures PackTag(DtypeName(t)) == (if t == DOUBLE then FLOAT else t)
  {
  }

  /** When a dict container repeats a name, the element that comes last wins. */
  lemma CreateDataLastNameWins(c: Container, i: nat)
    requires c.body.DictP? && i < |c.body.elements|
    requires forall j :: i < j < |c.body.elements| ==> c.body.elements[j].name != c.body.elements[i].name
    ensures Get(CreateData(c).entries, c.body.elements[i].name) == Some(CreateData(c.body.elements[i]))
  {
    var es := c.body.elements;
    FromPairsLastWins(NamedData(es, c), i);
  }

  /** Likewise for a dict space description. */
  lemma CreateSpaceLastNameWins(d: SpaceDesc, i: nat)
    requires d.body.DictD? && i < |d.body.elements|
    requires forall j :: i < j < |d.body.elements| ==> d.body.elements[j].name != d.body.elements[i].name
    ensures Get(CreateSpace(d).entries, d.body.elements[i].name) == Some(CreateSpace(d.body.elements[i]))
  {
    var es := d.body.elements;
    FromPairsLastWins(NamedSpaces(es, d), i);
  }
}
