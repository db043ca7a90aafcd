/**
 * The result normaliser of the basic workflow (`convert_numpy_to_json`).
 *
 * A stage result is a dynamically typed Python value tree. Here it is a closed
 * datatype: dicts with string keys, lists, tuples, numpy arrays, numpy scalars
 * and plain Python atoms. Numbers are kept abstract: an integer, or a real
 * standing for the float it denotes.
 */
module Normalizer {

  datatype Number = Int(i: int) | Float(x: real)

  /** One element of a numpy array: `tolist()` turns it into the matching Python scalar. */
  datatype Element = NumElem(n: Number) | BoolElem(b: bool)

  /** The contents of a numpy array: a 0-d cell, or one axis of sub-arrays. */
  datatype Cells = Cell(e: Element) | Axis(rows: seq<Cells>)

  /** Plain Python leaves. `Opaque` covers every other object (a map, a geometry); it may have a `save` method. */
  datatype Atom =
    | NoneAtom
    | BoolAtom(b: bool)
    | NumAtom(n: Number)
    | StrAtom(s: string)
    | Opaque(kind: string, canSave: bool)

  datatype Value =
    | Dict(entries: map<string, Value>)
    | List(items: seq<Value>)
    | Tuple(elems: seq<Value>)
    | NdArray(cells: Cells)
    | NpNum(n: Number)        // an instance of np.integer or np.floating
    | NpBool(b: bool)         // an instance of np.bool_
    | NpStr(s: string)        // an instance of np.str_, which subclasses Python's str
    | NpOther(kind: string)   // any other numpy scalar (bytes_, complex, datetime64, ...)
    | Plain(atom: Atom)

  /** Python's `None`. */
  const PyNone: Value := Plain(NoneAtom)

  /** The three numpy kinds that the normaliser converts. */
  predicate IsConvertible(v: Value) {
    v.NdArray? || v.NpNum? || v.NpBool?
  }

  /**
   * Normal form: no convertible numpy value at any position reachable through
   * dicts and lists. Tuples and every other leaf are left alone by the
   * normaliser, so they are normal whatever they contain.
   */
  predicate Normal(v: Value) {
    match v
    case Dict(m) => forall k :: k in m ==> Normal(m[k])
    case List(xs) => forall i :: 0 <= i < |xs| ==> Normal(xs[i])
    case _ => !IsConvertible(v)
  }

  /** The Python scalar `tolist()` produces for one array element. */
  function Unwrap(e: Element): (r: Value)
    ensures r.Plain? && r != PyNone
  {
    match e
    case NumElem(n) => Plain(NumAtom(n))
    case BoolElem(b) => Plain(BoolAtom(b))
  }

  /** `ndarray.tolist()`: one nested list per axis, elements unwrapped. */
  function ToList(c: Cells): (r: Value)
    ensures Normal(r)
    ensures c.Cell? ==> r.Plain?
    ensures c.Axis? ==> r.List? && |r.items| == |c.rows|
  {
    match c
    case Cell(e) => Unwrap(e)
    case Axis(rows) => List(seq(|rows|, i requires 0 <= i < |rows| => ToList(rows[i])))
  }

  /**
   * `convert_numpy_to_json`: the result is always in normal form; a dict stays
   * a dict over the same keys, a list a list of the same length, an array
   * becomes a list (or a scalar for a 0-d array), and every value outside the
   * converted kinds is returned as it is.
   */
  function Normalize(v: Value): (r: Value)
    ensures Normal(r)
    ensures v.Dict? ==> r.Dict? && r.entries.Keys == v.entries.Keys
    ensures v.List? ==> r.List? && |r.items| == |v.items|
    ensures v.NdArray? ==> r.List? || r.Plain?
    ensures !v.Dict? && !v.List? && !IsConvertible(v) ==> r == v
  {
    match v
    case Dict(m) => Dict(map k | k in m :: Normalize(m[k]))
    case List(xs) => List(seq(|xs|, i requires 0 <= i < |xs| => Normalize(xs[i])))
    case NdArray(c) => ToList(c)
    case NpNum(n) => Plain(NumAtom(n))
    case NpBool(b) => Plain(BoolAtom(b))
    case _ => v
  }

  /** What a value means to a reader, independent of numpy wrapping. */
  datatype Meaning =
    | MNone
    | MBool(b: bool)
    | MNum(n: Number)
    | MStr(s: string)
    | MObject(kind: string, canSave: bool)
    | MNumpyOther(kind: string)
    | MSeq(xs: seq<Meaning>)
    | MTuple(ts: seq<Meaning>)
    | MMap(m: map<string, Meaning>)

  function CellsMeaning(c: Cells): Meaning {
    match c
    case Cell(NumElem(n)) => MNum(n)
    case Cell(BoolElem(b)) => MBool(b)
    case Axis(rows) => MSeq(seq(|rows|, i requires 0 <= i < |rows| => CellsMeaning(rows[i])))
  }

  /**
   * The meaning of a value: numpy scalars mean the number or truth value they
   * wrap, an array means the nested sequence of its elements, lists mean
   * sequences, dicts mean maps; tuples stay tuples.
   */
  function MeaningOf(v: Value): Meaning {
    match v
    case Dict(m) => MMap(map k | k in m :: MeaningOf(m[k]))
    case List(xs) => MSeq(seq(|xs|, i requires 0 <= i < |xs| => MeaningOf(xs[i])))
    case Tuple(ts) => MTuple(seq(|ts|, i requires 0 <= i < |ts| => MeaningOf(ts[i])))
    case NdArray(c) => CellsMeaning(c)
    case NpNum(n) => MNum(n)
    case NpBool(b) => MBool(b)
    case NpStr(s) => MStr(s)
    case NpOther(kind) => MNumpyOther(kind)
    case Plain(NoneAtom) => MNone
    case Plain(BoolAtom(b)) => MBool(b)
    case Plain(NumAtom(n)) => MNum(n)
    case Plain(StrAtom(s)) => MStr(s)
    case Plain(Opaque(kind, canSave)) => MObject(kind, canSave)
  }

  lemma {:induction false} ToListKeepsMeaning(c: Cells)
    ensures MeaningOf(ToList(c)) == CellsMeaning(c)
  {
    match c
    case Cell(e) =>
    case Axis(rows) =>
      forall i | 0 <= i < |rows| {
        ToListKeepsMeaning(rows[i]);
      }
      assert MeaningOf(ToList(c)).xs == CellsMeaning(c).xs;
  }

  /**
   * Normalising changes representation only: every key, every element in its
   * position and every number or truth value is kept.
   */
  lemma {:induction false} NormalizeKeepsMeaning(v: Value)
    ensures MeaningOf(Normalize(v)) == MeaningOf(v)
  {
    match v
    case Dict(m) =>
      forall k | k in m {
        NormalizeKeepsMeaning(m[k]);
      }
      assert MeaningOf(Normalize(v)).m == MeaningOf(v).m;
    case List(xs) =>
      forall i | 0 <= i < |xs| {
        NormalizeKeepsMeaning(xs[i]);
      }
      assert MeaningOf(Normalize(v)).xs == MeaningOf(v).xs;
    case NdArray(c) =>
      ToListKeepsMeaning(c);
    case _ =>
  }

  /** A value is left unchanged exactly when it is already in normal form. */
  lemma {:induction false} NormalizeFixpoint(v: Value)
    ensures Normalize(v) == v <==> Normal(v)
  {
    match v
    case Dict(m) =>
      if Normal(v) {
        forall k | k in m {
          NormalizeFixpoint(m[k]);
        }
        assert Normalize(v).entries == m;
      } else {
        var k :| k in m && !Normal(m[k]);
        NormalizeFixpoint(m[k]);
        assert Normalize(v).entries[k] != m[k];
      }
    case List(xs) =>
      if Normal(v) {
        forall i | 0 <= i < |xs| {
          NormalizeFixpoint(xs[i]);
        }
        assert Normalize(v).items == xs;
      } else {
        var i :| 0 <= i < |xs| && !Normal(xs[i]);
        NormalizeFixpoint(xs[i]);
        assert Normalize(v).items[i] != xs[i];
      }
    case _ =>
  }

  lemma NormalizeIdempotent(v: Value)
    ensures Normalize(Normalize(v)) == Normalize(v)
  {
    NormalizeFixpoint(Normalize(v));
  }

  /** No numpy value of any kind anywhere in the tree, tuples included. */
  predicate NumpyFree(v: Value) {
    match v
    case Dict(m) => forall k :: k in m ==> NumpyFree(m[k])
    case List(xs) => forall i :: 0 <= i < |xs| ==> NumpyFree(xs[i])
    case Tuple(ts) => forall i :: 0 <= i < |ts| ==> NumpyFree(ts[i])
    case Plain(_) => true
    case _ => false
  }

  /** Numpy values the normaliser cannot reach: other numpy scalars, or anything numpy inside a tuple. */
  predicate NumpyOutOfReach(v: Value) {
    match v
    case Dict(m) => exists k :: k in m && NumpyOutOfReach(m[k])
    case List(xs) => exists i :: 0 <= i < |xs| && NumpyOutOfReach(xs[i])
    case Tuple(_) => !NumpyFree(v)
    case NpStr(_) => true
    case NpOther(_) => true
    case _ => false
  }

  /**
   * The normalised tree holds no numpy value at all exactly when the input had
   * none out of the normaliser's reach.
   */
  lemma {:induction false} NormalizeRemovesNumpy(v: Value)
    ensures NumpyFree(Normalize(v)) <==> !NumpyOutOfReach(v)
  {
    match v
    case Dict(m) =>
      forall k | k in m {
        NormalizeRemovesNumpy(m[k]);
      }
    case List(xs) =>
      var ys := Normalize(v).items;
      forall i | 0 <= i < |xs|
        ensures NumpyFree(ys[i]) <==> !NumpyOutOfReach(xs[i])
      {
        NormalizeRemovesNumpy(xs[i]);
      }
    case NdArray(c) =>
      ToListNumpyFree(c);
    case _ =>
  }

  lemma {:induction false} ToListNumpyFree(c: Cells)
    ensures NumpyFree(ToList(c))
  {
    match c
    case Cell(e) =>
    case Axis(rows) =>
      forall i | 0 <= i < |rows| {
        ToListNumpyFree(rows[i]);
      }
  }

  /**
   * What `json.dump` accepts: None, bools, numbers, strings, lists, tuples and
   * string-keyed dicts of such. A numpy floating scalar subclasses Python's
   * float (it is modelled as float64) and a numpy string subclasses str, so
   * both are accepted; other numpy values, arrays and opaque objects are
   * refused.
   */
  predicate JsonDumpable(v: Value) {
    match v
    case Dict(m) => forall k :: k in m ==> JsonDumpable(m[k])
    case List(xs) => forall i :: 0 <= i < |xs| ==> JsonDumpable(xs[i])
    case Tuple(ts) => forall i :: 0 <= i < |ts| ==> JsonDumpable(ts[i])
    case NpNum(n) => n.Float?
    case NpStr(_) => true
    case Plain(a) => !a.Opaque?
    case _ => false
  }

  /** A result tree built only from dicts, lists, arrays, numpy numbers and bools and plain scalars. */
  predicate NumericTree(v: Value) {
    match v
    case Dict(m) => forall k :: k in m ==> NumericTree(m[k])
    case List(xs) => forall i :: 0 <= i < |xs| ==> NumericTree(xs[i])
    case NdArray(_) => true
    case NpNum(_) => true
    case NpBool(_) => true
    case Plain(a) => !a.Opaque?
    case _ => false
  }

  /** The converter's purpose: any numeric result tree becomes writable as JSON. */
  lemma {:induction false} NormalizedTreeIsDumpable(v: Value)
    requires NumericTree(v)
    ensures JsonDumpable(Normalize(v))
  {
    match v
    case Dict(m) =>
      forall k | k in m {
        NormalizedTreeIsDumpable(m[k]);
      }
    case List(xs) =>
      forall i | 0 <= i < |xs| {
        NormalizedTreeIsDumpable(xs[i]);
      }
    case NdArray(c) =>
      ToListDumpable(c);
    case _ =>
  }

  lemma {:induction false} ToListDumpable(c: Cells)
    ensures JsonDumpable(ToList(c))
  {
    match c
    case Cell(e) =>
    case Axis(rows) =>
      forall i | 0 <= i < |rows| {
        ToListDumpable(rows[i]);
      }
  }

  /** Normalising never turns a value `json.dump` accepts into one it refuses. */
  lemma {:induction false} NormalizeKeepsDumpable(v: Value)
    requires JsonDumpable(v)
    ensures JsonDumpable(Normalize(v))
  {
    match v
    case Dict(m) =>
      forall k | k in m {
        NormalizeKeepsDumpable(m[k]);
      }
    case List(xs) =>
      forall i | 0 <= i < |xs| {
        NormalizeKeepsDumpable(xs[i]);
      }
    case _ =>
  }
}
