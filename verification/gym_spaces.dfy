/** The gym environment's conversions between the simulator's tagged
    description trees and Python-side spaces and values:
    - `CreateSpace` turns a space description into a space;
    - `CreateData` turns a received data container into a native value;
    - `PackData` turns an action into a data container to send back.

    A protobuf `Any` holding a sub-message is modelled by the variant of a
    datatype, so the type tag and the payload can never disagree. */
module GymSpaces {
  import opened Common
  import opened PyDict

  /** Element type tag of a box, shared by space descriptions and box data. */
  datatype DtypeTag = INT | UINT | FLOAT | DOUBLE

  /** A space description as the simulator sends it. */
  datatype SpaceDesc = SpaceDesc(name: string, body: DescBody)

  datatype DescBody =
    | DiscreteD(n: int)
    | BoxD(low: real, high: real, shape: seq<nat>, dtype: DtypeTag)
    | TupleD(elements: seq<SpaceDesc>)
    | DictD(elements: seq<SpaceDesc>)
    | UnknownD  // a type value none of the four branches matches

  /** A Python-side space; `NoSpace` is the `None` an unmatched description
      yields. A box's dtype is the name of its numpy element type. */
  datatype Space =
    | Discrete(n: int)
    | Box(low: real, high: real, shape: seq<nat>, dtype: string)
    | TupleS(spaces: seq<Space>)
    | DictS(entries: Dict<Space>)
    | NoSpace

  /** A data container; `UnknownP` is one that was never filled in, read
      back as a value matching none of the four branches. */
  datatype Container = Container(name: string, body: Payload)

  datatype Payload =
    | DiscreteP(data: int)
    | BoxP(shape: seq<nat>, dtype: DtypeTag,
           intData: seq<real>, uintData: seq<real>, floatData: seq<real>, doubleData: seq<real>)
    | TupleP(elements: seq<Container>)
    | DictP(elements: seq<Container>)
    | UnknownP

  /** A Python-side value: an integer, a one-dimensional array, a tuple, a
      dict, or `None`. */
  datatype Value =
    | IntV(i: int)
    | ArrayV(elems: seq<real>)
    | TupleV(items: seq<Value>)
    | DictV(entries: Dict<Value>)
    | NoneV

  /** Why packing an action raises. */
  datatype PackError =
    | WrongActionShape   // the action is not the kind of value the space needs
    | NoSubSpaces        // the top-level action space has no `spaces` to look into
    | MissingKey(key: string)

  // ---------------------------------------------------------------------
  // _create_space

  /** The numpy element type a described box gets: INT becomes the platform
      integer, UINT the platform unsigned integer, and DOUBLE and FLOAT both
      the platform float, all 64 bits wide. */
  function DtypeName(t: DtypeTag): (name: string)
    ensures t == INT <==> name in IntNames
    ensures t == UINT <==> name in UintNames
    ensures t in {FLOAT, DOUBLE} <==> name in FloatNames
  {
    match t
    case INT => "int64"
    case UINT => "uint64"
    case DOUBLE => "float64"
    case FLOAT => "float64"
  }

  /** `_create_space`: a tuple's sub-spaces keep their order; a dict's
      sub-spaces are keyed by the names of their descriptions. */
  function CreateSpace(d: SpaceDesc): (s: Space)
    ensures d.body.DiscreteD? <==> s.Discrete?
    ensures d.body.BoxD? <==> s.Box?
    ensures d.body.TupleD? <==> s.TupleS?
    ensures d.body.DictD? <==> s.DictS?
    ensures d.body.UnknownD? <==> s.NoSpace?
    ensures s.Discrete? ==> s.n == d.body.n
    ensures s.Box? ==> s.low == d.body.low && s.high == d.body.high && s.shape == d.body.shape
    ensures s.Box? ==> s.dtype == DtypeName(d.body.dtype)
    ensures s.TupleS? ==> |s.spaces| == |d.body.elements|
    ensures s.TupleS? ==> forall i :: 0 <= i < |s.spaces| ==> s.spaces[i] == CreateSpace(d.body.elements[i])
    ensures s.DictS? ==> UniqueKeys(s.entries)
    ensures s.DictS? ==> forall k :: k in Keys(s.entries) <==>
              exists i :: 0 <= i < |d.body.elements| && d.body.elements[i].name == k
    decreases d
  {
    match d.body
    case DiscreteD(n) => Discrete(n)
    case BoxD(low, high, shape, dtype) => Box(low, high, shape, DtypeName(dtype))
    case TupleD(es) =>
      TupleS(seq(|es|, i requires 0 <= i < |es| => CreateSpace(es[i])))
    case DictD(es) =>
      var ps := NamedSpaces(es, d);
      assert forall k :: k in Keys(ps) <==> exists i :: 0 <= i < |es| && es[i].name == k by {
        forall k { InKeys(ps, k); }
      }
      DictS(FromPairs(ps))
    case UnknownD => NoSpace
  }

  /** Each description's name paired with the space it creates. */
  function NamedSpaces(es: seq<SpaceDesc>, ghost parent: SpaceDesc): (ps: seq<(string, Space)>)
    requires forall i :: 0 <= i < |es| ==> es[i] < parent
    ensures |ps| == |es|
    ensures forall i :: 0 <= i < |es| ==> ps[i] == (es[i].name, CreateSpace(es[i]))
    decreases parent, 0
  {
    seq(|es|, i requires 0 <= i < |es| => (es[i].name, CreateSpace(es[i])))
  }

  // ---------------------------------------------------------------------
  // _create_data

  /** The element list a box container holds: the field its tag names. */
  function BoxField(p: Payload): (xs: seq<real>)
    requires p.BoxP?
    ensures p.dtype == INT ==> xs == p.intData
    ensures p.dtype == UINT ==> xs == p.uintData
    ensures p.dtype == DOUBLE ==> xs == p.doubleData
    ensures p.dtype == FLOAT ==> xs == p.floatData
  {
    match p.dtype
    case INT => p.intData
    case UINT => p.uintData
    case DOUBLE => p.doubleData
    case FLOAT => p.floatData
  }

  /** `_create_data`: a box becomes its elements, unreshaped; a tuple keeps
      its order; a dict is keyed by its elements' names. */
  function CreateData(c: Container): (v: Value)
    ensures c.body.DiscreteP? <==> v.IntV?
    ensures c.body.BoxP? <==> v.ArrayV?
    ensures c.body.TupleP? <==> v.TupleV?
    ensures c.body.DictP? <==> v.DictV?
    ensures c.body.UnknownP? <==> v == NoneV
    ensures v.IntV? ==> v.i == c.body.data
    ensures v.ArrayV? ==> v.elems == BoxField(c.body)
    ensures v.TupleV? ==> |v.items| == |c.body.elements|
    ensures v.TupleV? ==> forall i :: 0 <= i < |v.items| ==> v.items[i] == CreateData(c.body.elements[i])
    ensures v.DictV? ==> UniqueKeys(v.entries)
    ensures v.DictV? ==> forall k :: k in Keys(v.entries) <==>
              exists i :: 0 <= i < |c.body.elements| && c.body.elements[i].name == k
    decreases c
  {
    match c.body
    case DiscreteP(x) => IntV(x)
    case BoxP(_, _, _, _, _, _) => ArrayV(BoxField(c.body))
    case TupleP(es) =>
      TupleV(seq(|es|, i requires 0 <= i < |es| => CreateData(es[i])))
    case DictP(es) =>
      var ps := NamedData(es, c);
      assert forall k :: k in Keys(ps) <==> exists i :: 0 <= i < |es| && es[i].name == k by {
        forall k { InKeys(ps, k); }
      }
      DictV(FromPairs(ps))
    case UnknownP => NoneV
  }

  /** Each container's name paired with the value it creates. */
  function NamedData(es: seq<Container>, ghost parent: Container): (ps: seq<(string, Value)>)
    requires forall i :: 0 <= i < |es| ==> es[i] < parent
    ensures |ps| == |es|
    ensures forall i :: 0 <= i < |es| ==> ps[i] == (es[i].name, CreateData(es[i]))
    decreases parent, 0
  {
    seq(|es|, i requires 0 <= i < |es| => (es[i].name, CreateData(es[i])))
  }

  // ---------------------------------------------------------------------
  // _pack_data

  const IntNames: seq<string> := ["int", "int8", "int16", "int32", "int64"]
  const UintNames: seq<string> := ["uint", "uint8", "uint16", "uint32", "uint64"]
  const FloatNames: seq<string> := ["float", "float32", "float64"]

  /** The tag a box action is packed under, by the space's element type:
      the families are tried in order and anything unrecognised is FLOAT. */
  function PackTag(dtype: string): (t: DtypeTag)
    ensures dtype in IntNames ==> t == INT
    ensures dtype in UintNames ==> t == UINT
    ensures dtype in FloatNames ==> t == FLOAT
    ensures dtype == "double" ==> t == DOUBLE
    ensures dtype !in IntNames + UintNames + FloatNames + ["double"] ==> t == FLOAT
  {
    if dtype in IntNames then INT
    else if dtype in UintNames then UINT
    else if dtype in FloatNames then FLOAT
    else if dtype == "double" then DOUBLE
    else FLOAT
  }

  /** A packed box: shape is the action's length, and the elements go into
      the field matching the tag while the other three stay empty. */
  function PackBox(xs: seq<real>, dtype: string): (p: Payload)
    ensures p.BoxP? && p.shape == [|xs|] && p.dtype == PackTag(dtype)
    ensures p.intData == (if p.dtype == INT then xs else [])
    ensures p.uintData == (if p.dtype == UINT then xs else [])
    ensures p.floatData == (if p.dtype == FLOAT then xs else [])
    ensures p.doubleData == (if p.dtype == DOUBLE then xs else [])
  {
    var t := PackTag(dtype);
    BoxP([|xs|], t,
         if t == INT then xs else [],
         if t == UINT then xs else [],
         if t == FLOAT then xs else [],
         if t == DOUBLE then xs else [])
  }

  /** The first failure of a list of sub-results, or all their containers. */
  function Collect(rs: seq<Result<Container, PackError>>): (r: Result<seq<Container>, PackError>)
    ensures r.Success? <==> forall i :: 0 <= i < |rs| ==> rs[i].Success?
    ensures r.Success? ==> |r.value| == |rs| && forall i :: 0 <= i < |rs| ==> r.value[i] == rs[i].value
    ensures r.Failure? ==> exists i :: 0 <= i < |rs| && rs[i] == Failure(r.error)
                                     && forall j :: 0 <= j < i ==> rs[j].Success?
  {
    if rs == [] then Success([])
    else if rs[0].Failure? then Failure(rs[0].error)
    else
      match Collect(rs[1..])
      case Success(cs) =>
        Success([rs[0].value] + cs)
      case Failure(e) =>
        assert forall j :: 1 <= j < |rs| ==> rs[j] == rs[1..][j - 1];
        Failure(e)
  }

  /** `_pack_data(actions, space)` with `top` the environment's action space.
      A tuple's or dict's sub-spaces are looked up in `top`, not in `space`:
      a tuple is zipped with `top`'s sub-spaces (with the keys of `top` when
      `top` is a dict, which are no spaces and pack as unknown), and a dict
      action's keys are looked up in `top`. Containers are unnamed except a
      dict's elements, which carry their keys. */
  function PackData(a: Value, space: Space, top: Space): (r: Result<Container, PackError>)
    ensures space.Discrete? ==> (r.Success? <==> a.IntV?)
    ensures space.Discrete? && a.IntV? ==> r.value == Container("", DiscreteP(a.i))
    ensures space.Box? ==> (r.Success? <==> a.ArrayV?)
    ensures space.Box? && a.ArrayV? ==> r.value == Container("", PackBox(a.elems, space.dtype))
    ensures space.NoSpace? ==> r == Success(Container("", UnknownP))
    ensures space.TupleS? && !top.TupleS? && !top.DictS? ==> r == Failure(NoSubSpaces)
    ensures r.Success? && space.TupleS? ==>
              a.TupleV? && r.value.body.TupleP? && |r.value.body.elements| == Min(|a.items|, SubSpaceCount(top))
    ensures r.Success? && space.DictS? ==>
              a.DictV? && r.value.body.DictP? && |r.value.body.elements| == |a.entries|
              && forall i :: 0 <= i < |a.entries| ==> r.value.body.elements[i].name == a.entries[i].0
    ensures r.Success? && space.TupleS? ==>
              forall i :: 0 <= i < |r.value.body.elements| ==>
                Success(r.value.body.elements[i]) ==
                  if top.TupleS? then PackData(a.items[i], top.spaces[i], top) else Success(Container("", UnknownP))
    ensures r.Success? && space.DictS? ==>
              forall i :: 0 <= i < |a.entries| ==> Success(r.value.body.elements[i]) == PackEntry(a.entries[i], top, a)
    decreases a, 2
  {
    match space
    case Discrete(_) =>
      if a.IntV? then Success(Container("", DiscreteP(a.i))) else Failure(WrongActionShape)
    case Box(_, _, _, dtype) =>
      if a.ArrayV? then Success(Container("", PackBox(a.elems, dtype))) else Failure(WrongActionShape)
    case TupleS(_) =>
      if !top.TupleS? && !top.DictS? then Failure(NoSubSpaces)
      else if !a.TupleV? then Failure(WrongActionShape)
      else
        var n := Min(|a.items|, SubSpaceCount(top));
        var rs := PackItems(a.items[..n], top, a);
        (match Collect(rs)
         case Success(cs) => Success(Container("", TupleP(cs)))
         case Failure(e) => Failure(e))
    case DictS(_) =>
      if !a.DictV? then Failure(WrongActionShape)
      else
        var es := a.entries;
        var rs := PackEntries(es, top, a);
        (match Collect(rs)
         case Success(cs) => Success(Container("", DictP(cs)))
         case Failure(e) => Failure(e))
    case NoSpace => Success(Container("", UnknownP))
  }

  /** A tuple action's items zipped with `top`'s sub-spaces. */
  function PackItems(items: seq<Value>, top: Space, ghost parent: Value): (rs: seq<Result<Container, PackError>>)
    requires forall i :: 0 <= i < |items| ==> items[i] < parent
    requires |items| <= SubSpaceCount(top)
    ensures |rs| == |items|
    ensures forall i :: 0 <= i < |items| ==>
              rs[i] == if top.TupleS? then PackData(items[i], top.spaces[i], top)
                       else Success(Container("", UnknownP))
    decreases parent, 0
  {
    seq(|items|, i requires 0 <= i < |items| =>
          if top.TupleS? then PackData(items[i], top.spaces[i], top)
          else Success(Container("", UnknownP)))
  }

  /** A dict action's entries, each packed as `PackEntry` does. */
  function PackEntries(es: seq<(string, Value)>, top: Space, ghost parent: Value): (rs: seq<Result<Container, PackError>>)
    requires forall i :: 0 <= i < |es| ==> es[i].1 < parent
    ensures |rs| == |es|
    ensures forall i :: 0 <= i < |es| ==> rs[i] == PackEntry(es[i], top, parent)
    decreases parent, 1
  {
    seq(|es|, i requires 0 <= i < |es| => PackEntry(es[i], top, parent))
  }

  /** One dict entry: its value packed against `top`'s sub-space under its
      key, and named by the key. */
  function PackEntry(entry: (string, Value), top: Space, ghost parent: Value): (r: Result<Container, PackError>)
    requires entry.1 < parent
    ensures r.Success? ==> r.value.name == entry.0
    ensures !top.DictS? ==> r == Failure(NoSubSpaces)
    ensures top.DictS? && entry.0 !in Keys(top.entries) ==> r == Failure(MissingKey(entry.0))
    ensures top.DictS? && entry.0 in Keys(top.entries) ==>
              var packed := PackData(entry.1, Get(top.entries, entry.0).value, top);
              && (r.Success? <==> packed.Success?)
              && (r.Success? ==> r.value == packed.value.(name := entry.0))
              && (r.Failure? ==> r.error == packed.error)
    decreases parent, 0
  {
    if !top.DictS? then Failure(NoSubSpaces)
    else match Get(top.entries, entry.0)
      case None => Failure(MissingKey(entry.0))
      case Some(sub) =>
        match PackData(entry.1, sub, top)
        case Success(c) => Success(c.(name := entry.0))
        case Failure(e) => Failure(e)
  }

  function Min(x: nat, y: nat): nat
  {
    if x <= y then x else y
  }

  /** How many sub-spaces iterating over `top.spaces` yields. */
  function SubSpaceCount(top: Space): nat
  {
    match top
    case TupleS(ss) => |ss|
    case DictS(es) => |es|
    case _ => 0
  }
}
