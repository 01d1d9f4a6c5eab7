/** What `to_string` and `collect_dataframes` promise about a query tree:
    which bindings make rendering fail and with which name, what the
    replacement map holds, where a bound value lands in the rendered text,
    and that every table alias written into the SQL is registered under the
    same name by the collection. */
module SqlProperties {
  import Decimal
  import SafeTemplate
  import opened Sql

  /** Names are distinct, as keyword arguments always are. */
  ghost predicate DistinctNames(bindings: seq<(string, Value)>) {
    forall i, j :: 0 <= i < j < |bindings| ==> bindings[i].0 != bindings[j].0
  }

  // ---------------------------------------------------------------------
  // Failure of to_string

  /** Rendering `v`, bound under `key`, fails with the name `k`: `v` is
      itself unsupported and `k` is its key, or `v` is a nested query in
      which some binding fails with `k`. */
  ghost predicate ValueFailsWith(key: string, v: Value, k: string)
    decreases v
  {
    match v
    case Other => key == k
    case Nested(q) => FailsWith(q, k)
    case _ => false
  }

  /** Some binding reachable from `q` is unsupported and is named `k`. */
  ghost predicate FailsWith(q: Query, k: string)
    decreases q, 1
  {
    exists i :: 0 <= i < |q.bindings| && BindingFailsWith(q, i, k)
  }

  ghost predicate BindingFailsWith(q: Query, i: int, k: string)
    requires 0 <= i < |q.bindings|
    decreases q, 0
  {
    assert q.bindings[i] in q.bindings;
    ValueFailsWith(q.bindings[i].0, q.bindings[i].1, k)
  }

  /** Some binding reachable from `q` is unsupported. */
  ghost predicate HasUnsupported(q: Query) {
    exists k :: FailsWith(q, k)
  }

  lemma {:induction false} RenderValueFails(key: string, v: Value, f: Foreign)
    ensures RenderValue(key, v, f).Err? ==> ValueFailsWith(key, v, RenderValue(key, v, f).key)
    ensures forall k :: ValueFailsWith(key, v, k) ==> RenderValue(key, v, f).Err?
    decreases v
  {
    if v.Nested? {
      RenderFails(v.query, f);
    }
  }

  lemma {:induction false} ReplacementsFail(q: Query, n: nat, f: Foreign)
    requires n <= |q.bindings|
    ensures Replacements(q, n, f).Err? ==>
              exists i :: 0 <= i < n && BindingFailsWith(q, i, Replacements(q, n, f).key)
    ensures forall i, k :: 0 <= i < n && BindingFailsWith(q, i, k) ==> Replacements(q, n, f).Err?
    decreases q, 0, n
  {
    if n > 0 {
      ReplacementsFail(q, n - 1, f);
      var (key, v) := q.bindings[n - 1];
      assert q.bindings[n - 1] in q.bindings;
      RenderValueFails(key, v, f);
      if Replacements(q, n - 1, f).Ok? && RenderValue(key, v, f).Err? {
        assert BindingFailsWith(q, n - 1, Replacements(q, n, f).key);
      }
    }
  }

  /** `to_string` fails exactly when some binding, at any depth, has an
      unsupported type, and the error names such a binding; no text is
      produced then. */
  lemma {:induction false} RenderFails(q: Query, f: Foreign)
    ensures Render(q, f).Err? <==> HasUnsupported(q)
    ensures Render(q, f).Err? ==> FailsWith(q, Render(q, f).key)
    decreases q, 1
  {
    ReplacementsFail(q, |q.bindings|, f);
    if HasUnsupported(q) {
      var k :| FailsWith(q, k);
      assert FailsWith(q, k);
      var i :| 0 <= i < |q.bindings| && BindingFailsWith(q, i, k);
      assert Replacements(q, |q.bindings|, f).Err?;
    }
    if Render(q, f).Err? {
      assert FailsWith(q, Render(q, f).key);
    }
  }

  // ---------------------------------------------------------------------
  // The replacement map

  /** Building the replacement map reads only the bindings, not the
      template. */
  lemma {:induction false} ReplacementsOfBindings(q: Query, q': Query, n: nat, f: Foreign)
    requires q.bindings == q'.bindings && n <= |q.bindings|
    ensures Replacements(q, n, f) == Replacements(q', n, f)
  {
    if n > 0 {
      ReplacementsOfBindings(q, q', n - 1, f);
    }
  }

  /** With distinct names, every binding name is a key of a successful
      replacement map, holding the rendering of its own value. */
  lemma {:induction false} ReplacementsValues(q: Query, n: nat, f: Foreign)
    requires n <= |q.bindings| && DistinctNames(q.bindings)
    ensures Replacements(q, n, f).Ok? ==>
              forall i :: 0 <= i < n ==>
                q.bindings[i].0 in Replacements(q, n, f).value
                && RenderValue(q.bindings[i].0, q.bindings[i].1, f)
                   == Ok(Replacements(q, n, f).value[q.bindings[i].0])
  {
    if n > 0 && Replacements(q, n, f).Ok? {
      ReplacementsValues(q, n - 1, f);
    }
  }

  /** With distinct names, a successful replacement map has exactly the
      binding names as keys, and each maps to the rendering of its own
      value. */
  lemma ReplacementsContent(q: Query, n: nat, f: Foreign)
    requires n <= |q.bindings| && DistinctNames(q.bindings)
    ensures Replacements(q, n, f).Ok? ==>
              (forall i :: 0 <= i < n ==> RenderValue(q.bindings[i].0, q.bindings[i].1, f).Ok?)
    ensures Replacements(q, n, f).Ok? ==>
              (forall key :: key in Replacements(q, n, f).value <==>
                 exists i :: 0 <= i < n && q.bindings[i].0 == key)
    ensures Replacements(q, n, f).Ok? ==>
              (forall i :: 0 <= i < n ==>
                 Replacements(q, n, f).value[q.bindings[i].0]
                 == RenderValue(q.bindings[i].0, q.bindings[i].1, f).value)
  {
    ReplacementsValues(q, n, f);
    ReplacementsKeys(q, n, f);
  }

  /** Substitution of a template made of plain text, one named
      placeholder, and the rest. */
  lemma PlaceholderAfterText(u: string, name: string, v: string, m: map<string, string>)
    requires SafeTemplate.IsIdentifier(name)
    requires '$' !in u && (v == [] || !SafeTemplate.IsIdChar(v[0]))
    ensures SafeTemplate.Substitute(u + "$" + name + v, m)
         == u + (if name in m then m[name] else "$" + name) + SafeTemplate.Substitute(v, m)
  {
    var w := "$" + name + v;
    var x := if name in m then m[name] else "$" + name;
    var rest := SafeTemplate.Substitute(v, m);
    calc {
      SafeTemplate.Substitute(u + "$" + name + v, m);
    == { assert u + "$" + name + v == u + w; }
      SafeTemplate.Substitute(u + w, m);
    == { SafeTemplate.SubstituteLiteralPrefix(u, w, m); }
      u + SafeTemplate.Substitute(w, m);
    == { SafeTemplate.NamedPlaceholder(name, v, m); }
      u + (x + rest);
    == { assert u + (x + rest) == u + x + rest; }
      u + x + rest;
    }
  }


  /** Where the template holds the placeholder "$name" for a binding of
      `q`, with plain text `u` before it, the rendered text is `u`, then
      the binding's rendering inserted as is (never rescanned), then the
      rest of the template rendered with the same bindings. */
  lemma RenderPlaceholder(q: Query, f: Foreign, i: nat, u: string, v: string)
    requires DistinctNames(q.bindings) && i < |q.bindings|
    requires SafeTemplate.IsIdentifier(q.bindings[i].0)
    requires q.template == u + "$" + q.bindings[i].0 + v
    requires '$' !in u && (v == [] || !SafeTemplate.IsIdChar(v[0]))
    requires Render(q, f).Ok?
    ensures RenderValue(q.bindings[i].0, q.bindings[i].1, f).Ok?
    ensures Render(Query(v, q.bindings), f).Ok?
    ensures Render(q, f).value
         == u + RenderValue(q.bindings[i].0, q.bindings[i].1, f).value
              + Render(Query(v, q.bindings), f).value
  {
    var (name, value) := q.bindings[i];
    var rest := Query(v, q.bindings);
    var n := |q.bindings|;
    ReplacementsOfBindings(q, rest, n, f);
    ReplacementsContent(q, n, f);
    var m := Replacements(q, n, f).value;
    assert m[name] == RenderValue(name, value, f).value;
    assert Render(q, f).value == SafeTemplate.Substitute(q.template, m);
    assert Render(rest, f).value == SafeTemplate.Substitute(v, m);
    PlaceholderAfterText(u, name, v, m);
  }

  /** A placeholder with no binding is left in the text verbatim. */
  lemma RenderUnbound(q: Query, f: Foreign, name: string, u: string, v: string)
    requires SafeTemplate.IsIdentifier(name)
    requires forall i :: 0 <= i < |q.bindings| ==> q.bindings[i].0 != name
    requires q.template == u + "$" + name + v
    requires '$' !in u && (v == [] || !SafeTemplate.IsIdChar(v[0]))
    requires Render(q, f).Ok?
    ensures Render(Query(v, q.bindings), f).Ok?
    ensures Render(q, f).value == u + "$" + name + Render(Query(v, q.bindings), f).value
  {
    var rest := Query(v, q.bindings);
    var n := |q.bindings|;
    ReplacementsOfBindings(q, rest, n, f);
    var m := Replacements(q, n, f).value;
    ReplacementsKeys(q, n, f);
    assert name !in m;
    assert Render(rest, f).value == SafeTemplate.Substitute(v, m);
    calc {
      Render(q, f).value;
    ==
      SafeTemplate.Substitute(u + "$" + name + v, m);
    == { PlaceholderAfterText(u, name, v, m); }
      u + ("$" + name) + SafeTemplate.Substitute(v, m);
    == { assert u + ("$" + name) == u + "$" + name; }
      u + "$" + name + Render(rest, f).value;
    }
  }

  /** Every key of the replacement map is a binding name (whether or not
      names are distinct). */
  lemma {:induction false} ReplacementsKeys(q: Query, n: nat, f: Foreign)
    requires n <= |q.bindings|
    ensures Replacements(q, n, f).Ok? ==>
              forall key :: key in Replacements(q, n, f).value ==>
                exists i :: 0 <= i < n && q.bindings[i].0 == key
  {
    if n > 0 {
      ReplacementsKeys(q, n - 1, f);
    }
  }

  // ---------------------------------------------------------------------
  // Collected dataframes

  /** Table `id` is bound in `q` itself or in a query nested in it at any
      depth. */
  ghost predicate Reaches(q: Query, id: TableId)
    decreases q, 1
  {
    exists i :: 0 <= i < |q.bindings| && BindingReaches(q, i, id)
  }

  ghost predicate BindingReaches(q: Query, i: int, id: TableId)
    requires 0 <= i < |q.bindings|
    decreases q, 0
  {
    assert q.bindings[i] in q.bindings;
    match q.bindings[i].1
    case Table(t) => t == id
    case Nested(inner) => Reaches(inner, id)
    case _ => false
  }

  /** Distinct tables get distinct aliases, so a table reached along
      several paths is entered once and no two tables share an entry. */
  lemma AliasInjective(a: TableId, b: TableId)
    ensures Alias(a) == Alias(b) ==> a == b
  {
    if Alias(a) == Alias(b) {
      assert Decimal.NatToString(a) == Alias(a)[3..] == Alias(b)[3..] == Decimal.NatToString(b);
      Decimal.NatToStringInjective(a, b);
    }
  }

  /** Every entry is keyed by the alias of the table it holds. */
  ghost predicate KeyedByAlias(m: map<string, TableId>) {
    forall key :: key in m ==> key == Alias(m[key])
  }

  lemma {:induction false} CollectPrefixKeyed(q: Query, n: nat)
    requires n <= |q.bindings|
    ensures KeyedByAlias(CollectPrefix(q, n))
    decreases q, 0, n
  {
    if n > 0 {
      CollectPrefixKeyed(q, n - 1);
      assert q.bindings[n - 1] in q.bindings;
      match q.bindings[n - 1].1 {
        case Nested(inner) =>
          CollectPrefixKeyed(inner, |inner.bindings|);
        case _ =>
      }
    }
  }

  lemma {:induction false} CollectPrefixExact(q: Query, n: nat)
    requires n <= |q.bindings|
    ensures forall id :: Alias(id) in CollectPrefix(q, n) ==>
                           exists i :: 0 <= i < n && BindingReaches(q, i, id)
    ensures forall id :: (exists i :: 0 <= i < n && BindingReaches(q, i, id)) ==>
                           Alias(id) in CollectPrefix(q, n)
    decreases q, 0, n
  {
    if n > 0 {
      CollectPrefixExact(q, n - 1);
      assert q.bindings[n - 1] in q.bindings;
      match q.bindings[n - 1].1 {
        case Table(t) =>
          forall id ensures Alias(id) == Alias(t) ==> id == t {
            AliasInjective(id, t);
          }
        case Nested(inner) =>
          CollectExact(inner);
        case _ =>
      }
      forall id | exists i :: 0 <= i < n && BindingReaches(q, i, id)
        ensures Alias(id) in CollectPrefix(q, n)
      {
        var i :| 0 <= i < n && BindingReaches(q, i, id);
        if i < n - 1 {
          assert Alias(id) in CollectPrefix(q, n - 1);
        }
      }
      forall id | Alias(id) in CollectPrefix(q, n)
        ensures exists i :: 0 <= i < n && BindingReaches(q, i, id)
      {
        if Alias(id) in CollectPrefix(q, n - 1) {
          var i :| 0 <= i < n - 1 && BindingReaches(q, i, id);
          assert 0 <= i < n && BindingReaches(q, i, id);
        } else {
          assert BindingReaches(q, n - 1, id);
        }
      }
      assert forall id :: Alias(id) in CollectPrefix(q, n) ==>
                           exists i :: 0 <= i < n && BindingReaches(q, i, id);
    }
  }

  /** `collect_dataframes` returns exactly the tables reachable through
      nested queries, each under its own alias. */
  lemma {:induction false} CollectExact(q: Query)
    ensures KeyedByAlias(Collect(q))
    ensures forall id :: Alias(id) in Collect(q) <==> Reaches(q, id)
    decreases q, 1
  {
    CollectPrefixKeyed(q, |q.bindings|);
    CollectPrefixExact(q, |q.bindings|);
  }

  /** The collected map is one-to-one: its values are exactly the reachable
      tables and each appears under exactly one key. */
  lemma CollectOneToOne(q: Query)
    ensures forall id :: id in Collect(q).Values <==> Reaches(q, id)
    ensures forall k1, k2 :: k1 in Collect(q) && k2 in Collect(q) && Collect(q)[k1] == Collect(q)[k2] ==> k1 == k2
  {
    CollectExact(q);
    forall id | id in Collect(q).Values ensures Reaches(q, id) {
      var key :| key in Collect(q) && Collect(q)[key] == id;
    }
    forall id | Reaches(q, id) ensures id in Collect(q).Values {
      AliasInjective(id, Collect(q)[Alias(id)]);
    }
  }

  /** The dataframes collected depend only on the bindings, not on the
      template text. */
  lemma {:induction false} CollectPrefixOfBindings(q: Query, q': Query, n: nat)
    requires q.bindings == q'.bindings && n <= |q.bindings|
    ensures CollectPrefix(q, n) == CollectPrefix(q', n)
  {
    if n > 0 {
      CollectPrefixOfBindings(q, q', n - 1);
    }
  }

  /** Wherever a table binding is used in the template, the replacement
      map `to_string` builds sets its name to the table's alias, and that
      alias is a key of the collected map holding the same table: the name
      registered with the engine is the name the SQL uses. */
  lemma TableAliasRegistered(q: Query, f: Foreign, i: nat)
    requires DistinctNames(q.bindings) && i < |q.bindings| && q.bindings[i].1.Table?
    requires Render(q, f).Ok?
    ensures Replacements(q, |q.bindings|, f).Ok?
    ensures q.bindings[i].0 in Replacements(q, |q.bindings|, f).value
    ensures Replacements(q, |q.bindings|, f).value[q.bindings[i].0] == Alias(q.bindings[i].1.id)
    ensures Alias(q.bindings[i].1.id) in Collect(q)
    ensures Collect(q)[Alias(q.bindings[i].1.id)] == q.bindings[i].1.id
  {
    var id := q.bindings[i].1.id;
    ReplacementsValues(q, |q.bindings|, f);
    CollectExact(q);
    assert BindingReaches(q, i, id);
    AliasInjective(id, Collect(q)[Alias(id)]);
  }

  /** Rendering a table placeholder after plain text `u` writes the
      table's alias, which is a key of the collected map holding that same
      table. The rest of the template, taken with the same bindings,
      collects the same map, so applying this lemma again to the rest covers
      every later table placeholder of `q`. */
  lemma RenderedAliasIsRegistered(q: Query, f: Foreign, i: nat, u: string, v: string)
    requires DistinctNames(q.bindings) && i < |q.bindings| && q.bindings[i].1.Table?
    requires SafeTemplate.IsIdentifier(q.bindings[i].0)
    requires q.template == u + "$" + q.bindings[i].0 + v
    requires '$' !in u && (v == [] || !SafeTemplate.IsIdChar(v[0]))
    requires Render(q, f).Ok?
    ensures Render(Query(v, q.bindings), f).Ok?
    ensures Render(q, f).value
         == u + Alias(q.bindings[i].1.id) + Render(Query(v, q.bindings), f).value
    ensures Alias(q.bindings[i].1.id) in Collect(q)
    ensures Collect(q)[Alias(q.bindings[i].1.id)] == q.bindings[i].1.id
    ensures Collect(Query(v, q.bindings)) == Collect(q)
  {
    var id := q.bindings[i].1.id;
    RenderPlaceholder(q, f, i, u, v);
    CollectPrefixOfBindings(Query(v, q.bindings), q, |q.bindings|);
    CollectExact(q);
    assert BindingReaches(q, i, id);
    AliasInjective(id, Collect(q)[Alias(id)]);
  }
}
