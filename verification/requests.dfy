/** The request-body logic shared by the three resources: the required-field
    check of a create and the dynamic SET list of an update. */
module Requests {

  import opened Values

  /** Every one of the fields is a key of the body. */
  predicate Present(body: Body, fields: seq<string>)
  {
    forall f :: f in fields ==> f in body
  }

  /** The position of the first required field absent from the body, or
      |required| when all are present. Only presence counts: a key bound to
      null or to an empty string passes. */
  function FirstMissing(required: seq<string>, body: Body): (i: nat)
    ensures i <= |required|
    ensures forall j :: 0 <= j < i ==> required[j] in body
    ensures i < |required| ==> required[i] !in body
    decreases |required|
  {
    if |required| == 0 then 0
    else if required[0] !in body then 0
    else 1 + FirstMissing(required[1..], body)
  }

  /** `xs` is `ys` with some elements dropped, the rest kept in order. */
  predicate Subsequence<T(==)>(xs: seq<T>, ys: seq<T>)
    decreases |ys|
  {
    |xs| == 0 ||
    (|ys| > 0 && if xs[0] == ys[0] then Subsequence(xs[1..], ys[1..]) else Subsequence(xs, ys[1..]))
  }

  /** The part of the body a fixed column list recognises. */
  function Restrict(body: Body, columns: seq<string>): (r: Body)
  {
    map c | c in body && c in columns :: body[c]
  }

  /** A column -> value map from parallel lists. */
  function Zip(keys: seq<string>, vals: seq<Value>): map<string, Value>
    requires |keys| == |vals|
    decreases |keys|
  {
    if |keys| == 0 then map[] else Zip(keys[1..], vals[1..])[keys[0] := vals[0]]
  }

  /** The SET list of an update: each column of `columns` that the body
      holds, with the body's value for it, in the order of `columns`. */
  function SetList(columns: seq<string>, body: Body): (r: (seq<string>, seq<Value>))
    ensures |r.0| == |r.1|
    ensures forall c :: c in r.0 <==> c in columns && c in body
    ensures forall i :: 0 <= i < |r.0| ==> r.0[i] in body && r.1[i] == body[r.0[i]]
    ensures Subsequence(r.0, columns)
    decreases |columns|
  {
    if |columns| == 0 then ([], [])
    else
      var rest := SetList(columns[1..], body);
      if columns[0] in body then ([columns[0]] + rest.0, [body[columns[0]]] + rest.1)
      else rest
  }

  /** `UPDATE t SET f1 = %s, ..., fn = %s WHERE id = %s` with its parameters. */
  datatype UpdateQuery = UpdateQuery(fields: seq<string>, values: seq<Value>)
  {
    /** One parameter per SET column plus one for the WHERE placeholder. */
    predicate WellFormed()
    {
      |values| == |fields| + 1
    }

    /** The parameter bound to `WHERE id = %s`. */
    function Key(): Value
      requires WellFormed()
    {
      values[|fields|]
    }

    /** The SET clause as a column -> value map. */
    function Assignments(): map<string, Value>
      requires WellFormed()
    {
      Zip(fields, values[..|fields|])
    }
  }

  /** The update statement for row `id`: the SET list, then the id appended
      as the last parameter. */
  function BuildUpdate(columns: seq<string>, body: Body, id: nat): (q: UpdateQuery)
    ensures q.WellFormed() && q.Key() == Num(id)
    ensures forall c :: c in q.fields <==> c in columns && c in body
    ensures Subsequence(q.fields, columns)
    ensures forall i :: 0 <= i < |q.fields| ==> q.values[i] == body[q.fields[i]]
    ensures q.Assignments() == Restrict(body, columns)
  {
    var (fields, vals) := SetList(columns, body);
    SetListAssigns(columns, body);
    assert (vals + [Num(id)])[..|fields|] == vals;
    UpdateQuery(fields, vals + [Num(id)])
  }

  /** Restricting to a column list peels off its first column. */
  lemma RestrictFirst(body: Body, columns: seq<string>)
    requires |columns| > 0
    ensures columns[0] in body ==> Restrict(body, columns) == Restrict(body, columns[1..])[columns[0] := body[columns[0]]]
    ensures columns[0] !in body ==> Restrict(body, columns) == Restrict(body, columns[1..])
  {
    assert forall c :: c in columns <==> c == columns[0] || c in columns[1..];
  }

  /** Executing the SET list assigns exactly the recognised columns the body
      supplies, each to the body's value. */
  lemma {:induction false} SetListAssigns(columns: seq<string>, body: Body)
    ensures var r := SetList(columns, body); Zip(r.0, r.1) == Restrict(body, columns)
    decreases |columns|
  {
    if |columns| > 0 {
      SetListAssigns(columns[1..], body);
      RestrictFirst(body, columns);
      var c := columns[0];
      var rest := SetList(columns[1..], body);
      if c in body {
        var fs, vs := [c] + rest.0, [body[c]] + rest.1;
        assert fs[1..] == rest.0 && vs[1..] == rest.1;
        assert Zip(fs, vs) == Zip(rest.0, rest.1)[c := body[c]];
      }
    }
  }

  /** The body holds at least one of the columns. */
  predicate Supplies(body: Body, columns: seq<string>)
  {
    exists c :: c in columns && c in body
  }

  /** An update has something to do exactly when the body holds at least one
      recognised column. */
  lemma EmptySetList(columns: seq<string>, body: Body, id: nat)
    ensures |BuildUpdate(columns, body, id).fields| == 0 <==> !Supplies(body, columns)
  {
    var q := BuildUpdate(columns, body, id);
    if |q.fields| > 0 {
      assert q.fields[0] in q.fields;
    }
  }

  /** Reading a recognised column through the restricted body is reading it
      from the body itself. */
  lemma RestrictGet(body: Body, columns: seq<string>, c: string, default: Value)
    requires c in columns
    ensures GetOr(Restrict(body, columns), c, default) == GetOr(body, c, default)
  {
  }
}
