/**
 * The part of a pandas DataFrame that the credit-risk code relies on: an
 * ordered list of distinct column labels, the number of rows, and for each
 * label its column of values, one per row.  `Frame` is the value; `Table`
 * is the object that `df[label] = ...` updates in place.
 */
module Frames {

  datatype Frame = Frame(columns: seq<string>, data: map<string, seq<real>>, height: nat)

  /** Selecting a label the frame does not have raises pandas' KeyError. */
  datatype Error = KeyError(column: string)

  datatype Result<T> = Ok(value: T) | Err(error: Error)

  datatype Option<T> = None | Some(value: T)

  /** No label occurs twice. */
  predicate Distinct(names: seq<string>) {
    names == [] || (names[0] !in names[1..] && Distinct(names[1..]))
  }

  /** Appending a label that is not yet present keeps the labels distinct. */
  lemma {:induction false} DistinctAppend(names: seq<string>, name: string)
    requires Distinct(names) && name !in names
    ensures Distinct(names + [name])
  {
    if names != [] {
      assert (names + [name])[1..] == names[1..] + [name];
      DistinctAppend(names[1..], name);
    }
  }

  /** A prefix of a prefix is a prefix. */
  lemma PrefixTrans(a: seq<string>, b: seq<string>, c: seq<string>)
    requires a <= b && b <= c
    ensures a <= c
  {
    assert a == b[..|a|] && b == c[..|b|];
    assert c[..|b|][..|a|] == c[..|a|];
  }

  function Labels(names: seq<string>): set<string> {
    set c | c in names
  }

  /**
   * No label occurs twice, the labels are exactly the keys of the column
   * map, and every column has one value per row.
   */
  ghost predicate WellFormed(f: Frame) {
    && Distinct(f.columns)
    && f.data.Keys == Labels(f.columns)
    && forall c :: c in f.data ==> |f.data[c]| == f.height
  }

  /** `df[name]`: the column as a series, one value per row. */
  function Column(f: Frame, name: string): (xs: seq<real>)
    requires WellFormed(f) && name in f.columns
    ensures |xs| == f.height
  {
    assert name in Labels(f.columns);
    f.data[name]
  }

  /** A scalar broadcast to a series of length `n`. */
  function Broadcast(n: nat, v: real): (xs: seq<real>)
    ensures |xs| == n && forall i :: 0 <= i < n ==> xs[i] == v
  {
    seq(n, _ => v)
  }

  /**
   * `df[name] = vals`: an existing column is overwritten where it stands,
   * a new label is appended after the existing columns.  Every other
   * column keeps its values.
   */
  function WithColumn(f: Frame, name: string, vals: seq<real>): (g: Frame)
    requires |vals| == f.height
    ensures g.height == f.height
    ensures f.columns <= g.columns && name in g.columns
    ensures name in f.columns ==> g.columns == f.columns
    ensures name !in f.columns ==> g.columns == f.columns + [name]
    ensures Labels(g.columns) == Labels(f.columns) + {name}
    ensures g.data.Keys == f.data.Keys + {name} && g.data[name] == vals
    ensures forall c :: c in f.data && c != name ==> g.data[c] == f.data[c]
    ensures WellFormed(f) ==> WellFormed(g)
  {
    var cols := if name in f.columns then f.columns else f.columns + [name];
    assert Labels(cols) == Labels(f.columns) + {name};
    assert Distinct(f.columns) ==> Distinct(cols) by {
      if Distinct(f.columns) && name !in f.columns {
        DistinctAppend(f.columns, name);
      }
    }
    Frame(cols, f.data[name := vals], f.height)
  }

  /**
   * `h` is `f` after column writes to the labels `written`: still well
   * formed, the same rows, the old columns first and in order, exactly the
   * written labels added, and every other column unchanged.
   */
  ghost predicate Extends(f: Frame, h: Frame, written: set<string>) {
    && WellFormed(h) && h.height == f.height && f.columns <= h.columns
    && Labels(h.columns) == Labels(f.columns) + written
    && forall c :: c in f.data && c !in written ==> c in h.data && h.data[c] == f.data[c]
  }

  /** One column write extends a well-formed frame by its label. */
  lemma ExtendsWithColumn(f: Frame, name: string, vals: seq<real>)
    requires WellFormed(f) && |vals| == f.height
    ensures Extends(f, WithColumn(f, name, vals), {name})
  {
  }

  /** Writes done one after another extend the frame by all their labels. */
  lemma ExtendsTrans(f: Frame, g: Frame, h: Frame, a: set<string>, b: set<string>)
    requires Extends(f, g, a) && Extends(g, h, b)
    ensures Extends(f, h, a + b)
  {
    PrefixTrans(f.columns, g.columns, h.columns);
  }

  /** `df[name] = v` for a scalar `v`: every row gets `v`. */
  function WithScalar(f: Frame, name: string, v: real): (g: Frame)
  {
    WithColumn(f, name, Broadcast(f.height, v))
  }

  /** `pd.DataFrame(np.zeros((1, len(labels))), columns=labels)`. */
  function ZeroFrame(labels: seq<string>): (f: Frame)
    ensures f.columns == labels && f.height == 1
    ensures f.data.Keys == Labels(labels)
    ensures forall c :: c in labels ==> f.data[c] == [0.0]
    ensures Distinct(labels) ==> WellFormed(f)
  {
    Frame(labels, map c | c in labels :: [0.0], 1)
  }

  /** A DataFrame object; column assignment updates it in place. */
  class Table {
    var columns: seq<string>
    var data: map<string, seq<real>>
    var height: nat

    function Value(): Frame
      reads this
    {
      Frame(columns, data, height)
    }

    ghost predicate Valid()
      reads this
    {
      WellFormed(Value())
    }

    constructor Zeros(labels: seq<string>)
      requires Distinct(labels)
      ensures Valid() && Value() == ZeroFrame(labels)
    {
      columns := labels;
      data := ZeroFrame(labels).data;
      height := 1;
    }

    constructor Of(f: Frame)
      requires WellFormed(f)
      ensures Valid() && Value() == f
    {
      columns := f.columns;
      data := f.data;
      height := f.height;
    }

    method Assign(name: string, vals: seq<real>)
      requires Valid() && |vals| == height
      modifies this
      ensures Valid() && Value() == WithColumn(old(Value()), name, vals)
    {
      if name !in columns {
        DistinctAppend(columns, name);
        columns := columns + [name];
      }
      data := data[name := vals];
    }

    method AssignScalar(name: string, v: real)
      requires Valid()
      modifies this
      ensures Valid() && Value() == WithScalar(old(Value()), name, v)
    {
      Assign(name, Broadcast(height, v));
    }
  }
}
