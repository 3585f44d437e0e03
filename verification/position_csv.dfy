/** The position trace reader shared by the NR examples: a file is read line
    by line, each line is split on commas, every field is converted to a
    number, and a line with at least three fields contributes one position
    made of its first three. Splitting follows `std::getline`: a delimiter
    ends a field (an empty one included), and a final delimiter does not
    start another field. The string-to-number conversion is a parameter;
    `None` stands for the exception it throws on a field it cannot read. */
module PositionCsv {
  import opened Common

  datatype Vec3 = Vec3(x: real, y: real, z: real)

  /** The position of the first delimiter, or the length when there is none. */
  function IndexOf(s: string, delim: char): (i: nat)
    ensures i <= |s|
    ensures i < |s| ==> s[i] == delim
  {
    if s == [] then 0
    else if s[0] == delim then 0
    else 1 + IndexOf(s[1..], delim)
  }

  /** No delimiter comes before the one `IndexOf` finds. */
  lemma {:induction false} IndexOfFirst(s: string, delim: char)
    ensures forall j :: 0 <= j < IndexOf(s, delim) ==> s[j] != delim
    decreases |s|
  {
    if s != [] && s[0] != delim {
      IndexOfFirst(s[1..], delim);
    }
  }

  /** The strings repeated `std::getline(in, field, delim)` calls yield. */
  function Split(s: string, delim: char): (fields: seq<string>)
    ensures fields == [] <==> s == []
    decreases |s|
  {
    if s == [] then []
    else
      var i := IndexOf(s, delim);
      if i == |s| then [s]
      else [s[..i]] + Split(s[i + 1..], delim)
  }

  /** No field contains the delimiter. */
  lemma {:induction false} SplitFieldsDelimiterFree(s: string, delim: char)
    ensures forall k :: 0 <= k < |Split(s, delim)| ==> delim !in Split(s, delim)[k]
    decreases |s|
  {
    if s != [] {
      var i := IndexOf(s, delim);
      IndexOfFirst(s, delim);
      if i < |s| {
        SplitFieldsDelimiterFree(s[i + 1..], delim);
        var fs := Split(s, delim);
        assert fs[1..] == Split(s[i + 1..], delim);
        forall k | 0 < k < |fs| ensures delim !in fs[k] {
          assert fs[k] == fs[1..][k - 1];
        }
      }
    }
  }

  /** The fields put back together with the delimiter between them. */
  function Join(fields: seq<string>, delim: char): string
  {
    if fields == [] then []
    else if |fields| == 1 then fields[0]
    else fields[0] + [delim] + Join(fields[1..], delim)
  }

  /** A final delimiter, which splitting drops. */
  function Trailer(s: string, delim: char): string
  {
    if s != [] && s[|s| - 1] == delim then [delim] else []
  }

  /** Splitting loses nothing but a final delimiter. */
  lemma {:induction false} JoinSplit(s: string, delim: char)
    ensures s == Join(Split(s, delim), delim) + Trailer(s, delim)
    decreases |s|
  {
    if s != [] {
      var i := IndexOf(s, delim);
      if i == |s| {
        IndexOfFirst(s, delim);
        assert Split(s, delim) == [s];
      } else if i + 1 == |s| {
        assert Split(s, delim) == [s[..i]];
        AroundIndex(s, i, delim);
      } else {
        JoinSplit(s[i + 1..], delim);
        JoinSplitStep(s, delim, i);
      }
    }
  }

  /** The inductive step of `JoinSplit`: a first field and its delimiter,
      then the rest. */
  lemma JoinSplitStep(s: string, delim: char, i: nat)
    requires i == IndexOf(s, delim) && i + 1 < |s|
    requires s[i + 1..] == Join(Split(s[i + 1..], delim), delim) + Trailer(s[i + 1..], delim)
    ensures s == Join(Split(s, delim), delim) + Trailer(s, delim)
  {
    var rest := s[i + 1..];
    var fsr := Split(rest, delim);
    SplitCons(s, delim, i);
    TrailerSuffix(s, delim, i + 1);
    JoinCons(s[..i], fsr, delim);
    Reassociate(s[..i] + [delim], Join(fsr, delim), Trailer(rest, delim), rest);
    AroundIndex(s, i, delim);
  }

  lemma SplitCons(s: string, delim: char, i: nat)
    requires i == IndexOf(s, delim) && i < |s|
    ensures Split(s, delim) == [s[..i]] + Split(s[i + 1..], delim)
  {
  }

  lemma TrailerSuffix(s: string, delim: char, k: nat)
    requires k < |s|
    ensures Trailer(s, delim) == Trailer(s[k..], delim)
  {
    assert s[|s| - 1] == s[k..][|s[k..]| - 1];
  }

  lemma AroundIndex(s: string, i: nat, delim: char)
    requires i < |s| && s[i] == delim
    ensures s == s[..i] + [delim] + s[i + 1..]
  {
  }

  lemma Reassociate(a: string, j: string, t: string, rest: string)
    requires rest == j + t
    ensures a + j + t == a + rest
  {
  }

  lemma JoinCons(f: string, fs: seq<string>, delim: char)
    requires fs != []
    ensures Join([f] + fs, delim) == f + [delim] + Join(fs, delim)
  {
    assert ([f] + fs)[1..] == fs;
  }

  /** Splitting a joined list of delimiter-free fields gives the fields back,
      as long as the last one is not empty (an empty last field leaves only
      a final delimiter, which `std::getline` does not report). */
  lemma {:induction false} SplitJoin(fields: seq<string>, delim: char)
    requires forall k :: 0 <= k < |fields| ==> delim !in fields[k]
    requires fields != [] ==> fields[|fields| - 1] != []
    ensures Split(Join(fields, delim), delim) == fields
    decreases |fields|
  {
    if |fields| == 1 {
      assert IndexOf(fields[0], delim) == |fields[0]|;
    } else if |fields| > 1 {
      var rest := Join(fields[1..], delim);
      var s := fields[0] + [delim] + rest;
      assert IndexOf(s, delim) == |fields[0]| by {
        assert s == fields[0] + ([delim] + rest);
        IndexOfPrefix(fields[0], delim, [delim] + rest);
      }
      assert s[..|fields[0]|] == fields[0] && s[|fields[0]| + 1..] == rest;
      SplitJoin(fields[1..], delim);
      JoinNonEmpty(fields[1..], delim);
    }
  }

  lemma {:induction false} IndexOfPrefix(a: string, delim: char, b: string)
    requires delim !in a && b != [] && b[0] == delim
    ensures IndexOf(a + b, delim) == |a|
    decreases |a|
  {
    if a != [] {
      assert (a + b)[1..] == a[1..] + b;
      IndexOfPrefix(a[1..], delim, b);
    }
  }

  lemma {:induction false} JoinNonEmpty(fields: seq<string>, delim: char)
    requires fields != [] && fields[|fields| - 1] != []
    ensures Join(fields, delim) != []
    decreases |fields|
  {
    if |fields| > 1 {
      JoinNonEmpty(fields[1..], delim);
    }
  }

  /** Every field converted, or `None` at the first that cannot be. */
  function ConvertAll(fields: seq<string>, stod: string -> Option<real>): (r: Option<seq<real>>)
    ensures r.Some? ==> |r.value| == |fields|
    decreases |fields|
  {
    if fields == [] then Some([])
    else match stod(fields[0])
      case None => None
      case Some(v) =>
        match ConvertAll(fields[1..], stod)
        case None => None
        case Some(vs) => Some([v] + vs)
  }

  /** Converting succeeds exactly when every field converts, and then gives
      each field's number in order. */
  lemma {:induction false} ConvertAllSpec(fields: seq<string>, stod: string -> Option<real>)
    ensures ConvertAll(fields, stod).Some? <==> forall k :: 0 <= k < |fields| ==> stod(fields[k]).Some?
    ensures ConvertAll(fields, stod).Some? ==>
              forall k :: 0 <= k < |fields| ==> ConvertAll(fields, stod).value[k] == stod(fields[k]).value
    decreases |fields|
  {
    if fields != [] {
      ConvertAllSpec(fields[1..], stod);
      assert forall k :: 1 <= k < |fields| ==> fields[k] == fields[1..][k - 1];
    }
  }

  /** The lines of the file, none when it cannot be opened. */
  function Lines(file: Option<string>): seq<string>
  {
    if file.None? then [] else Split(file.value, '\n')
  }

  function Fields(line: string): seq<string>
  {
    Split(line, ',')
  }

  /** The position a line of at least three fields stands for: its first
      three numbers. */
  function PointOf(line: string, stod: string -> Option<real>): Vec3
    requires |Fields(line)| >= 3 && ConvertAll(Fields(line), stod).Some?
  {
    var cs := ConvertAll(Fields(line), stod).value;
    Vec3(cs[0], cs[1], cs[2])
  }

  /** What one line contributes: `None` when a field does not convert,
      otherwise the position it stands for when it has at least three
      fields, and nothing when it has fewer. */
  function LinePoint(line: string, stod: string -> Option<real>): (r: Option<Option<Vec3>>)
    ensures r.Some? <==> ConvertAll(Fields(line), stod).Some?
    ensures r.Some? ==> (r.value.Some? <==> |Fields(line)| >= 3)
    ensures r.Some? && r.value.Some? ==> r.value.value == PointOf(line, stod)
  {
    match ConvertAll(Fields(line), stod)
    case None => None
    case Some(coords) =>
      if |coords| >= 3 then Some(Some(Vec3(coords[0], coords[1], coords[2]))) else Some(None)
  }

  /** Every field of every line converts. */
  predicate AllConvert(lines: seq<string>, stod: string -> Option<real>)
  {
    forall m :: 0 <= m < |lines| ==> LinePoint(lines[m], stod).Some?
  }

  /** Every line's outcome, in line order. */
  function Outcomes(lines: seq<string>, stod: string -> Option<real>): (outs: seq<Option<Option<Vec3>>>)
    ensures |outs| == |lines|
    ensures forall m :: 0 <= m < |lines| ==> outs[m] == LinePoint(lines[m], stod)
  {
    seq(|lines|, m requires 0 <= m < |lines| => LinePoint(lines[m], stod))
  }

  /** The indices, among the first `k` outcomes, of those that carry a position. */
  function Carriers(outs: seq<Option<Option<Vec3>>>, k: nat): seq<nat>
    requires k <= |outs|
  {
    if k == 0 then []
    else Carriers(outs, k - 1) + (if outs[k - 1].Some? && outs[k - 1].value.Some? then [k - 1] else [])
  }

  /** The positions the first `k` outcomes carry, in order. */
  function Carried(outs: seq<Option<Option<Vec3>>>, k: nat): seq<Vec3>
    requires k <= |outs|
  {
    if k == 0 then []
    else Carried(outs, k - 1) + (if outs[k - 1].Some? && outs[k - 1].value.Some? then [outs[k - 1].value.value] else [])
  }

  /** Whether the first `k` outcomes all converted. */
  predicate AllConverted(outs: seq<Option<Option<Vec3>>>, k: nat)
    requires k <= |outs|
  {
    k == 0 || (outs[k - 1].Some? && AllConverted(outs, k - 1))
  }

  lemma {:induction false} AllConvertedAt(outs: seq<Option<Option<Vec3>>>, k: nat, m: nat)
    requires k <= |outs| && AllConverted(outs, k) && m < k
    ensures outs[m].Some?
    decreases k
  {
    if m < k - 1 {
      AllConvertedAt(outs, k - 1, m);
    }
  }

  /** There are as many carried positions as carrying outcomes, and each
      carrier index is below `k` and carries its position. */
  lemma {:induction false} CarriedMatch(outs: seq<Option<Option<Vec3>>>, k: nat)
    requires k <= |outs|
    ensures var origin, positions := Carriers(outs, k), Carried(outs, k);
            && |positions| == |origin|
            && forall i :: 0 <= i < |origin| ==> origin[i] < k && outs[origin[i]] == Some(Some(positions[i]))
    decreases k
  {
    if k > 0 {
      CarriedMatch(outs, k - 1);
      var origin0, positions0 := Carriers(outs, k - 1), Carried(outs, k - 1);
      var origin, positions := Carriers(outs, k), Carried(outs, k);
      if outs[k - 1].Some? && outs[k - 1].value.Some? {
        assert origin == origin0 + [k - 1] && positions == positions0 + [outs[k - 1].value.value];
        assert forall i :: 0 <= i < |origin0| ==> origin[i] == origin0[i] && positions[i] == positions0[i];
      }
    }
  }

  /** The carrier indices increase. */
  lemma {:induction false} CarriersIncrease(outs: seq<Option<Option<Vec3>>>, k: nat)
    requires k <= |outs|
    ensures forall i, j :: 0 <= i < j < |Carriers(outs, k)| ==> Carriers(outs, k)[i] < Carriers(outs, k)[j]
    ensures forall i :: 0 <= i < |Carriers(outs, k)| ==> Carriers(outs, k)[i] < k
    decreases k
  {
    if k > 0 {
      CarriersIncrease(outs, k - 1);
      var origin0, origin := Carriers(outs, k - 1), Carriers(outs, k);
      if outs[k - 1].Some? && outs[k - 1].value.Some? {
        assert origin == origin0 + [k - 1];
        assert forall i :: 0 <= i < |origin0| ==> origin[i] == origin0[i];
      }
    }
  }

  /** Every outcome carrying a position is among the carriers. */
  lemma {:induction false} CarriersComplete(outs: seq<Option<Option<Vec3>>>, k: nat, m: nat)
    requires k <= |outs| && m < k && outs[m].Some? && outs[m].value.Some?
    ensures m in Carriers(outs, k)
    decreases k
  {
    if m < k - 1 {
      CarriersComplete(outs, k - 1, m);
    }
  }

  /** The positions are, in order, those the outcomes carry, with `origin`
      naming each position's outcome: the carrier indices increase, each
      names an outcome carrying that very position, no outcome without a
      position is named, and every outcome with one is. */
  ghost predicate CarriedBy(outs: seq<Option<Option<Vec3>>>, positions: seq<Vec3>, origin: seq<nat>)
  {
    && |positions| == |origin| <= |outs|
    && (forall i, j :: 0 <= i < j < |origin| ==> origin[i] < origin[j])
    && (forall i :: 0 <= i < |origin| ==> origin[i] < |outs| && outs[origin[i]] == Some(Some(positions[i])))
    && (forall m :: 0 <= m < |outs| && outs[m] == Some(None) ==> m !in origin)
    && (forall m :: 0 <= m < |outs| && outs[m].Some? && outs[m].value.Some? ==> m in origin)
  }

  /** What a successful read promises: the positions are, in line order,
      those of the lines that stand for one (see `LinePoint`), with `origin`
      naming each position's line. */
  ghost predicate ReadsAs(lines: seq<string>, stod: string -> Option<real>, positions: seq<Vec3>, origin: seq<nat>)
  {
    CarriedBy(Outcomes(lines, stod), positions, origin)
  }

  /** Once every outcome converted, the carried positions and their carriers
      are related as `CarriedBy` describes. */
  lemma ScanDone(outs: seq<Option<Option<Vec3>>>)
    requires AllConverted(outs, |outs|)
    ensures forall m :: 0 <= m < |outs| ==> outs[m].Some?
    ensures CarriedBy(outs, Carried(outs, |outs|), Carriers(outs, |outs|))
  {
    var origin, positions := Carriers(outs, |outs|), Carried(outs, |outs|);
    CarriedMatch(outs, |outs|);
    CarriersIncrease(outs, |outs|);
    forall m | 0 <= m < |outs|
      ensures outs[m].Some?
    {
      AllConvertedAt(outs, |outs|, m);
    }
    forall m | 0 <= m < |outs| && outs[m].Some? && outs[m].value.Some?
      ensures m in origin
    {
      CarriersComplete(outs, |outs|, m);
    }
    StrictlyIncreasingBound(origin, |outs|);
  }

  /** A strictly increasing list of numbers below `n` has at most `n` entries. */
  lemma {:induction false} StrictlyIncreasingBound(xs: seq<nat>, n: nat)
    requires forall i, j :: 0 <= i < j < |xs| ==> xs[i] < xs[j]
    requires forall i :: 0 <= i < |xs| ==> xs[i] < n
    ensures |xs| <= n
    decreases n
  {
    if xs != [] {
      var last := xs[|xs| - 1];
      StrictlyIncreasingBound(xs[..|xs| - 1], last);
    }
  }

  /** The scan `ReadPositions` runs over the line outcomes: it gives up at
      the first line that does not convert, and otherwise collects the
      positions in order. */
  method ScanOutcomes(outs: seq<Option<Option<Vec3>>>) returns (r: Option<seq<Vec3>>, ghost origin: seq<nat>)
    ensures r.Some? <==> forall m :: 0 <= m < |outs| ==> outs[m].Some?
    ensures r.Some? ==> CarriedBy(outs, r.value, origin)
  {
    var positions: seq<Vec3> := [];
    origin := [];
    var k := 0;
    while k < |outs|
      invariant 0 <= k <= |outs|
      invariant AllConverted(outs, k)
      invariant origin == Carriers(outs, k) && positions == Carried(outs, k)
    {
      if outs[k].None? {
        return None, origin;
      }
      if outs[k].value.Some? {
        positions := positions + [outs[k].value.value];
        origin := origin + [k];
      }
      k := k + 1;
    }
    ScanDone(outs);
    r := Some(positions);
  }

  /** `ReadPositions` / `ReadPos`. The ghost `origin` lists the line each
      position came from. */
  method ReadPositions(file: Option<string>, stod: string -> Option<real>)
    returns (r: Option<seq<Vec3>>, ghost origin: seq<nat>)
    ensures file.None? ==> r == Some([])
    ensures r.Some? <==> AllConvert(Lines(file), stod)
    ensures r.Some? ==> ReadsAs(Lines(file), stod, r.value, origin)
  {
    var lines := Lines(file);
    var outs := Outcomes(lines, stod);
    r, origin := ScanOutcomes(outs);
  }
}
