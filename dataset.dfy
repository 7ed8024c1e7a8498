/**
  The read-only dataset view the checks consume: variables with their
  dimension names and shape, named dimensions with a size, and mesh variables
  with text attributes. Python truthiness and `str.split(" ")` are modelled
  here because the checks depend on them exactly.
*/
module DatasetView {
  import opened Wrappers

  /** A scalar attribute value as a netCDF attribute delivers it. */
  datatype AttrValue = IntVal(i: int) | RealVal(r: real) | TextVal(s: string)

  /** Python truthiness of a possibly missing value: None, 0, 0.0 and "" are false. */
  predicate Truthy(v: Option<AttrValue>)
  {
    match v
    case None => false
    case Some(IntVal(i)) => i != 0
    case Some(RealVal(r)) => r != 0.0
    case Some(TextVal(s)) => s != ""
  }

  /** The integer that `v` equals under Python's `==`, if there is one. */
  function IntValue(v: Option<AttrValue>): (r: Option<int>)
    ensures r.Some? ==> (Truthy(v) <==> r.value != 0)
    ensures r.Some? ==> v.Some? && !v.value.TextVal?
    ensures v.Some? && v.value.IntVal? ==> r == Some(v.value.i)
    ensures v.Some? && v.value.RealVal? ==>
      r == if v.value.r == v.value.r.Floor as real then Some(v.value.r.Floor) else None
  {
    match v
    case Some(IntVal(i)) => Some(i)
    case Some(RealVal(x)) => if x == x.Floor as real then Some(x.Floor) else None
    case _ => None
  }

  datatype Dimension = Dimension(name: string, size: nat)

  /**
    Truthiness of a context slot holding a dimension: None is false, and so is
    a dimension of size 0, because a netCDF dimension object has a length.
  */
  predicate DimTruthy(d: Option<Dimension>)
  {
    d.Some? && d.value.size != 0
  }

  /** A dataset variable: the names of its dimensions and its shape. */
  datatype Variable = Variable(dimensions: seq<string>, shape: seq<nat>)

  datatype Dataset = Dataset(variables: map<string, Variable>, dimensions: map<string, Dimension>)

  /** Every dimension is filed under its own name, as a netCDF file guarantees. */
  ghost predicate WellFormed(ds: Dataset)
  {
    forall n :: n in ds.dimensions ==> ds.dimensions[n].name == n
  }

  /** A mesh-topology variable; `id` stands for Python object identity. */
  datatype Mesh = Mesh(id: nat, attributes: map<string, string>)

  /** Python's `s.split(" ")`: every single space separates, so empty pieces survive. */
  function Split(s: string): (r: seq<string>)
    ensures |r| >= 1
    decreases |s|
  {
    if s == [] then [""]
    else
      var rest := Split(s[1..]);
      if s[0] == ' ' then [""] + rest
      else [[s[0]] + rest[0]] + rest[1..]
  }

  /** `" ".join(parts)`. */
  function Join(parts: seq<string>): (s: string)
    requires |parts| >= 1
    decreases |parts|
  {
    if |parts| == 1 then parts[0] else parts[0] + " " + Join(parts[1..])
  }

  function SpaceCount(s: string): nat
  {
    if s == [] then 0 else (if s[0] == ' ' then 1 else 0) + SpaceCount(s[1..])
  }

  /** Splitting yields one more piece than there are spaces, and no piece holds a space. */
  lemma {:induction false} SplitPieces(s: string)
    ensures |Split(s)| == SpaceCount(s) + 1
    ensures forall k :: 0 <= k < |Split(s)| ==> ' ' !in Split(s)[k]
    decreases |s|
  {
    if s != [] {
      SplitPieces(s[1..]);
    }
  }

  /** Joining the pieces with single spaces gives the string back. */
  lemma {:induction false} JoinSplit(s: string)
    ensures Join(Split(s)) == s
    decreases |s|
  {
    if s != [] {
      var rest := Split(s[1..]);
      JoinSplit(s[1..]);
      if s[0] == ' ' {
        assert Split(s) == [""] + rest;
        assert ([""] + rest)[1..] == rest;
      } else {
        var head := [s[0]] + rest[0];
        assert Split(s) == [head] + rest[1..];
        if |rest| == 1 {
          assert Join(Split(s)) == head;
        } else {
          assert ([head] + rest[1..])[1..] == rest[1..];
          assert Join(Split(s)) == head + " " + Join(rest[1..]);
          assert Join(rest) == rest[0] + " " + Join(rest[1..]);
        }
      }
    }
  }

  /** Splitting a join of space-free pieces gives the pieces back. */
  lemma {:induction false} SplitJoin(parts: seq<string>)
    requires |parts| >= 1
    requires forall k :: 0 <= k < |parts| ==> ' ' !in parts[k]
    ensures Split(Join(parts)) == parts
    decreases |parts|
  {
    if |parts| == 1 {
      SplitWord(parts[0]);
    } else {
      SplitJoin(parts[1..]);
      var t := " " + Join(parts[1..]);
      assert Join(parts) == parts[0] + t;
      SplitWordThenSpace(parts[0], t);
      assert t[1..] == Join(parts[1..]);
      assert [parts[0]] + parts[1..] == parts;
    }
  }

  /** A string without a space splits into itself. */
  lemma {:induction false} SplitWord(w: string)
    requires ' ' !in w
    ensures Split(w) == [w]
    decreases |w|
  {
    if w != [] {
      SplitWord(w[1..]);
      assert [w[0]] + w[1..] == w;
    }
  }

  /** A space-free word followed by a space becomes a piece of its own. */
  lemma {:induction false} SplitWordThenSpace(w: string, t: string)
    requires ' ' !in w
    requires |t| >= 1 && t[0] == ' '
    ensures Split(w + t) == [w] + Split(t[1..])
    decreases |w|
  {
    if w == [] {
      assert w + t == t;
    } else {
      SplitWordThenSpace(w[1..], t);
      assert (w + t)[1..] == w[1..] + t;
      assert [w[0]] + w[1..] == w;
    }
  }
}
