/** The `SQL` query object of ezduckdb: a template string with named
    bindings, rendered to SQL text (`to_string`) and searched for the
    dataframes it references (`collect_dataframes`). A query is immutable
    once built, so it is a datatype; since a datatype value cannot contain
    itself, the nesting of queries is always finite. */
module Sql {
  import Decimal
  import SafeTemplate

  /** Identity of an in-memory table (a pandas DataFrame in ezduckdb,
      where it is the object's `id()`). */
  type TableId = nat

  /** A bound value, by the kinds `to_string` distinguishes. `Text` covers
      both `str` and path values; `Float` carries an opaque token for a
      Python float; `Other` is any type `to_string` has no rule for. */
  datatype Value =
    | Table(id: TableId)
    | Nested(query: Query)
    | Text(text: string)
    | Int(i: int)
    | Bool(b: bool)
    | Float(bits: bv64)
    | Null
    | Other

  /** `SQL(sql, **bindings)`: the template and its bindings in keyword
      order. */
  datatype Query = Query(template: string, bindings: seq<(string, Value)>)

  /** Success, or failure naming the offending binding. */
  datatype Result<T> = Ok(value: T) | Err(key: string)

  /** The routines `to_string` calls but this model cannot see: the
      `sqlescape` function of the sqlescapy library, and Python's `str()`
      on a float. */
  datatype Foreign = Foreign(escape: string -> string, floatText: bv64 -> string)

  /** Name under which a table is substituted and registered. */
  function Alias(id: TableId): string {
    "df_" + Decimal.NatToString(id)
  }

  // ---------------------------------------------------------------------
  // Construction

  /** `name` occurs in `sql` starting at position `i`. */
  ghost predicate OccursAt(name: string, sql: string, i: int) {
    0 <= i && i + |name| <= |sql| && sql[i..i + |name|] == name
  }

  /** Python's `name in sql` on strings: `name` occurs as a substring. */
  ghost predicate Occurs(name: string, sql: string) {
    exists i :: OccursAt(name, sql, i)
  }

  /** An occurrence is either at the front or in the rest of the text. */
  lemma OccursSplit(name: string, sql: string)
    requires |name| <= |sql| && sql != []
    ensures Occurs(name, sql) <==> OccursAt(name, sql, 0) || Occurs(name, sql[1..])
  {
    if Occurs(name, sql) && !OccursAt(name, sql, 0) {
      var i :| OccursAt(name, sql, i);
      assert sql[1..][i - 1..i - 1 + |name|] == sql[i..i + |name|];
      assert OccursAt(name, sql[1..], i - 1);
    }
    if Occurs(name, sql[1..]) {
      var i :| OccursAt(name, sql[1..], i);
      assert sql[1..][i..i + |name|] == sql[i + 1..i + 1 + |name|];
      assert OccursAt(name, sql, i + 1);
    }
  }

  /** Executable substring test. */
  function Contains(sql: string, name: string): (b: bool)
    ensures b <==> Occurs(name, sql)
    decreases |sql|
  {
    if |name| > |sql| then false
    else if sql[..|name|] == name then (assert OccursAt(name, sql, 0); true)
    else (OccursSplit(name, sql); Contains(sql[1..], name))
  }

  /** The check `__init__` makes. */
  ghost predicate NamesOccur(sql: string, bindings: seq<(string, Value)>) {
    forall k :: 0 <= k < |bindings| ==> Occurs(bindings[k].0, sql)
  }

  /** `SQL.__init__`: fails (Python's AssertionError) on the first
      binding whose name does not occur in the template. */
  method Construct(sql: string, bindings: seq<(string, Value)>) returns (r: Result<Query>)
    ensures r.Ok? <==> NamesOccur(sql, bindings)
    ensures r.Ok? ==> r.value == Query(sql, bindings)
    ensures r.Err? ==> exists k :: 0 <= k < |bindings| && bindings[k].0 == r.key
                                   && !Occurs(r.key, sql)
                                   && NamesOccur(sql, bindings[..k])
  {
    var k := 0;
    while k < |bindings|
      invariant 0 <= k <= |bindings|
      invariant NamesOccur(sql, bindings[..k])
    {
      if !Contains(sql, bindings[k].0) {
        return Err(bindings[k].0);
      }
      assert bindings[..k + 1] == bindings[..k] + [bindings[k]];
      k := k + 1;
    }
    assert bindings[..k] == bindings;
    r := Ok(Query(sql, bindings));
  }

  // ---------------------------------------------------------------------
  // Rendering

  /** Text that one binding is replaced by. */
  function RenderValue(key: string, v: Value, f: Foreign): Result<string>
    decreases v
  {
    match v
    case Table(id) => Ok(Alias(id))
    case Nested(q) =>
      (match Render(q, f)
       case Ok(s) => Ok("(" + s + ")")
       case Err(k) => Err(k))
    case Text(s) => Ok("'" + f.escape(s) + "'")
    case Int(i) => Ok(Decimal.IntToString(i))
    case Bool(b) => Ok(if b then "True" else "False")
    case Float(x) => Ok(f.floatText(x))
    case Null => Ok("null")
    case Other => Err(key)
  }

  /** The `replacements` dict after the first `n` bindings of `q`: each
      binding sets its name to its text, the first failing binding stops
      the whole computation. */
  function Replacements(q: Query, n: nat, f: Foreign): Result<map<string, string>>
    requires n <= |q.bindings|
    decreases q, 0, n
  {
    if n == 0 then Ok(map[])
    else
      match Replacements(q, n - 1, f)
      case Err(k) => Err(k)
      case Ok(m) =>
        var (key, v) := q.bindings[n - 1];
        assert q.bindings[n - 1] in q.bindings;
        match RenderValue(key, v, f)
        case Err(k) => Err(k)
        case Ok(s) => Ok(m[key := s])
  }

  /** `SQL.to_string`. */
  function Render(q: Query, f: Foreign): Result<string>
    decreases q, 1
  {
    match Replacements(q, |q.bindings|, f)
    case Err(k) => Err(k)
    case Ok(m) => Ok(SafeTemplate.Substitute(q.template, m))
  }

  /** `SQL.to_string` as the Python code runs it: a loop filling the
      `replacements` dict binding by binding, a recursive call for each
      nested query, and one substitution pass at the end. */
  method ToString(q: Query, f: Foreign) returns (r: Result<string>)
    ensures r == Render(q, f)
    decreases q, 1
  {
    var replacements: map<string, string> := map[];
    var n := 0;
    while n < |q.bindings|
      invariant 0 <= n <= |q.bindings|
      invariant Replacements(q, n, f) == Ok(replacements)
    {
      var (key, value) := q.bindings[n];
      assert q.bindings[n] in q.bindings;
      var text: string;
      match value {
        case Table(id) =>
          text := Alias(id);
        case Nested(inner) =>
          var sub := ToString(inner, f);
          if sub.Err? {
            ReplacementsErrorStops(q, n + 1, |q.bindings|, f);
            return Err(sub.key);
          }
          text := "(" + sub.value + ")";
        case Text(s) =>
          text := "'" + f.escape(s) + "'";
        case Int(i) =>
          text := Decimal.IntToString(i);
        case Bool(b) =>
          text := if b then "True" else "False";
        case Float(x) =>
          text := f.floatText(x);
        case Null =>
          text := "null";
        case Other =>
          ReplacementsErrorStops(q, n + 1, |q.bindings|, f);
          return Err(key);
      }
      replacements := replacements[key := text];
      n := n + 1;
    }
    r := Ok(SafeTemplate.Substitute(q.template, replacements));
  }

  /** Once a binding fails, every longer prefix fails with the same key:
      nothing after the failure is rendered. */
  lemma {:induction false} ReplacementsErrorStops(q: Query, n: nat, n': nat, f: Foreign)
    requires n <= n' <= |q.bindings|
    requires Replacements(q, n, f).Err?
    ensures Replacements(q, n', f) == Replacements(q, n, f)
    decreases n' - n
  {
    if n < n' {
      ReplacementsErrorStops(q, n, n' - 1, f);
    }
  }

  // ---------------------------------------------------------------------
  // Collecting dataframes

  /** The `dataframes` dict after the first `n` bindings of `q`: a table
      is entered under its alias, a nested query's tables are merged in
      (`dict.update`), every other binding is skipped. */
  function CollectPrefix(q: Query, n: nat): map<string, TableId>
    requires n <= |q.bindings|
    decreases q, 0, n
  {
    if n == 0 then map[]
    else
      var m := CollectPrefix(q, n - 1);
      assert q.bindings[n - 1] in q.bindings;
      match q.bindings[n - 1].1
      case Table(id) => m[Alias(id) := id]
      case Nested(inner) => m + Collect(inner)
      case _ => m
  }

  /** `SQL.collect_dataframes`: never fails, whatever the bindings hold. */
  function Collect(q: Query): map<string, TableId>
    decreases q, 1
  {
    CollectPrefix(q, |q.bindings|)
  }

  /** `SQL.collect_dataframes` as the Python code runs it: a loop over the
      bindings, with a recursive call and an in-place merge for each nested
      query. */
  method CollectDataframes(q: Query) returns (dataframes: map<string, TableId>)
    ensures dataframes == Collect(q)
    decreases q
  {
    dataframes := map[];
    var n := 0;
    while n < |q.bindings|
      invariant 0 <= n <= |q.bindings|
      invariant dataframes == CollectPrefix(q, n)
    {
      assert q.bindings[n] in q.bindings;
      match q.bindings[n].1 {
        case Table(id) =>
          dataframes := dataframes[Alias(id) := id];
        case Nested(inner) =>
          var sub := CollectDataframes(inner);
          dataframes := dataframes + sub;
        case _ =>
      }
      n := n + 1;
    }
  }
}
