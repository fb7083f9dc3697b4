/** JSON values as the request handlers see them.

    The handlers never look inside a value, with three exceptions: a key's
    presence in a request body, equality of an id with a row's id (the
    WHERE clauses and the joins), and the ordering of appointment dates and
    times in the appointment listing. */
module Values {

  import opened Wrappers

  datatype Value =
    | Null
    | Bool(b: bool)
    | Num(n: int)
    | Text(s: string)
      /** Any other JSON value (a fractional number, an array, an object),
          passed through unexamined. */
    | Other(tag: nat)

  /** A JSON request body: the keys present in the object and their values. */
  type Body = map<string, Value>

  /** Python's `data.get(key, default)`. */
  function GetOr(body: map<string, Value>, key: string, default: Value): Value
  {
    if key in body then body[key] else default
  }

  /** The row id a value denotes when compared with an integer id column. */
  function AsId(v: Value): (r: Option<nat>)
    ensures r.Some? <==> v.Num? && v.n >= 0
    ensures r.Some? ==> v == Num(r.value)
  {
    match v
    case Num(n) => if n >= 0 then Some(n as nat) else None
    case _ => None
  }

  // ---------------------------------------------------------------------------
  // Ordering, as used by ORDER BY. Within one kind values compare naturally
  // (text lexicographically, which for ISO dates and times is chronological);
  // NULL sorts above everything, as in PostgreSQL's default.

  function Rank(v: Value): nat
  {
    match v
    case Bool(_) => 0
    case Num(_) => 1
    case Text(_) => 2
    case Other(_) => 3
    case Null => 4
  }

  /** Lexicographic order on strings. */
  predicate TextLe(a: string, b: string)
    decreases |a|
  {
    |a| == 0 || (|b| > 0 && (a[0] < b[0] || (a[0] == b[0] && TextLe(a[1..], b[1..]))))
  }

  predicate Le(a: Value, b: Value)
  {
    if Rank(a) != Rank(b) then Rank(a) < Rank(b)
    else match (a, b)
      case (Bool(x), Bool(y)) => !x || y
      case (Num(x), Num(y)) => x <= y
      case (Text(x), Text(y)) => TextLe(x, y)
      case (Other(x), Other(y)) => x <= y
      case _ => true
  }

  predicate Lt(a: Value, b: Value)
  {
    Le(a, b) && a != b
  }

  lemma {:induction false} TextLeTotal(a: string, b: string)
    ensures TextLe(a, b) || TextLe(b, a)
    decreases |a|
  {
    if |a| > 0 && |b| > 0 && a[0] == b[0] {
      TextLeTotal(a[1..], b[1..]);
    }
  }

  lemma {:induction false} TextLeAntisymmetric(a: string, b: string)
    requires TextLe(a, b) && TextLe(b, a)
    ensures a == b
    decreases |a|
  {
    if |a| > 0 {
      TextLeAntisymmetric(a[1..], b[1..]);
      assert a == [a[0]] + a[1..] && b == [b[0]] + b[1..];
    }
  }

  lemma {:induction false} TextLeTransitive(a: string, b: string, c: string)
    requires TextLe(a, b) && TextLe(b, c)
    ensures TextLe(a, c)
    decreases |a|
  {
    if |a| > 0 && a[0] == b[0] && b[0] == c[0] {
      TextLeTransitive(a[1..], b[1..], c[1..]);
    }
  }

  /** `Le` is a total order: total, antisymmetric and transitive. */
  lemma LeTotal(a: Value, b: Value)
    ensures Le(a, b) || Le(b, a)
  {
    if a.Text? && b.Text? {
      TextLeTotal(a.s, b.s);
    }
  }

  lemma LeAntisymmetric(a: Value, b: Value)
    requires Le(a, b) && Le(b, a)
    ensures a == b
  {
    if a.Text? && b.Text? {
      TextLeAntisymmetric(a.s, b.s);
    }
  }

  lemma LeTransitive(a: Value, b: Value, c: Value)
    requires Le(a, b) && Le(b, c)
    ensures Le(a, c)
  {
    if a.Text? && b.Text? && c.Text? {
      TextLeTransitive(a.s, b.s, c.s);
    }
  }

  /** A strict step followed by a weak one is strict. */
  lemma LtLeTransitive(a: Value, b: Value, c: Value)
    requires Lt(a, b) && Le(b, c)
    ensures Lt(a, c)
  {
    LeTransitive(a, b, c);
    if Le(c, a) {
      LeTransitive(b, c, a);
      LeAntisymmetric(a, b);
    }
  }
}
