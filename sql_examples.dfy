/** The behaviours shown in the `SQL` class's docstrings and the corner
    cases of rendering and collection. Most are stated for every plain-text
    lead-in `u` (template text with no '$') before the placeholder; the
    failure and collection cases use one fixed query. Every rendering
    example holds for every choice of the foreign routines (the escaping
    function and float formatting). */
module SqlExamples {
  import Decimal
  import SafeTemplate
  import opened Sql
  import opened SqlProperties

  /** Rendering of a template with one placeholder and no other '$',
      once the replacement map is known. */
  lemma RenderSinglePlaceholder(q: Query, f: Foreign, m: map<string, string>,
                                u: string, placeholder: string, name: string, v: string)
    requires Replacements(q, |q.bindings|, f) == Ok(m)
    requires q.template == u + placeholder + v && placeholder == "$" + name
    requires SafeTemplate.IsIdentifier(name)
    requires '$' !in u && '$' !in v && (v == [] || !SafeTemplate.IsIdChar(v[0]))
    ensures Render(q, f) == Ok(u + (if name in m then m[name] else placeholder) + v)
  {
    assert q.template == u + "$" + name + v;
    PlaceholderAfterText(u, name, v, m);
    SafeTemplate.NoDollarUnchanged(v, m);
  }

  /** An `int` is written unquoted in decimal: with `u` = "SELECT * FROM
      users WHERE id = " and `i` = 123 this is the docstring's
      "SELECT * FROM users WHERE id = 123". */
  lemma IntBinding(u: string, i: int, f: Foreign)
    requires '$' !in u
    ensures Render(Query(u + "$id", [("id", Int(i))]), f) == Ok(u + Decimal.IntToString(i))
  {
    var q := Query(u + "$id", [("id", Int(i))]);
    var m := map["id" := Decimal.IntToString(i)];
    assert Replacements(q, 1, f) == Ok(m);
    RenderSinglePlaceholder(q, f, m, u, "$id", "id", "");
    assert u + m["id"] + "" == u + Decimal.IntToString(i);
  }

  /** The decimal text of the docstring's value, and of a negative one. */
  lemma IntTexts()
    ensures Decimal.IntToString(123) == "123"
    ensures Decimal.IntToString(-45) == "-45"
  {
    assert Decimal.NatToString(12) == "12";
  }

  /** A bool is written as Python's `str(bool)`, unquoted. */
  lemma BoolBinding(u: string, b: bool, f: Foreign)
    requires '$' !in u
    ensures Render(Query(u + "$flag", [("flag", Bool(b))]), f)
         == Ok(u + if b then "True" else "False")
  {
    var q := Query(u + "$flag", [("flag", Bool(b))]);
    var m := map["flag" := if b then "True" else "False"];
    assert Replacements(q, 1, f) == Ok(m);
    RenderSinglePlaceholder(q, f, m, u, "$flag", "flag", "");
    assert u + m["flag"] + "" == u + if b then "True" else "False";
  }

  /** A nested query becomes its own rendering in parentheses, added to
      whatever parentheses the template already has: with `u` = "SELECT *
      FROM (" and `inner` = "SELECT * FROM data" the result is
      "SELECT * FROM ((SELECT * FROM data)) AS sub", with two pairs. */
  lemma NestedBinding(u: string, inner: string, f: Foreign)
    requires '$' !in u && '$' !in inner
    ensures Render(Query(u + "$subquery" + ") AS sub", [("subquery", Nested(Query(inner, [])))]), f)
         == Ok(u + ("(" + inner + ")") + ") AS sub")
  {
    var sub := Query(inner, []);
    assert Replacements(sub, 0, f) == Ok(map[]);
    SafeTemplate.NoDollarUnchanged(inner, map[]);
    assert Render(sub, f) == Ok(inner);
    var q := Query(u + "$subquery" + ") AS sub", [("subquery", Nested(sub))]);
    var m := map["subquery" := "(" + inner + ")"];
    assert Replacements(q, 1, f) == Ok(m);
    var v := ") AS sub";
    RenderSinglePlaceholder(q, f, m, u, "$subquery", "subquery", v);
  }

  /** A string is escaped by the foreign routine and single-quoted. */
  lemma TextBinding(u: string, s: string, f: Foreign)
    requires '$' !in u
    ensures Render(Query(u + "$name", [("name", Text(s))]), f)
         == Ok(u + ("'" + f.escape(s) + "'"))
  {
    var q := Query(u + "$name", [("name", Text(s))]);
    var m := map["name" := "'" + f.escape(s) + "'"];
    assert Replacements(q, 1, f) == Ok(m);
    RenderSinglePlaceholder(q, f, m, u, "$name", "name", "");
    assert u + m["name"] + "" == u + ("'" + f.escape(s) + "'");
  }

  /** `None` renders as the bare word null: "SELECT $x" with x=None gives
      "SELECT null". */
  lemma NullBinding(u: string, f: Foreign)
    requires '$' !in u
    ensures Render(Query(u + "$x", [("x", Null)]), f) == Ok(u + "null")
  {
    var q := Query(u + "$x", [("x", Null)]);
    var m := map["x" := "null"];
    assert Replacements(q, 1, f) == Ok(m);
    RenderSinglePlaceholder(q, f, m, u, "$x", "x", "");
    assert u + m["x"] + "" == u + "null";
  }

  /** A value of a type with no rendering rule makes the whole rendering
      fail with that binding's name. */
  lemma UnsupportedBinding(f: Foreign)
    ensures Render(Query("SELECT $x", [("x", Other)]), f) == Err("x")
  {
    var q := Query("SELECT $x", [("x", Other)]);
    assert Replacements(q, 0, f) == Ok(map[]);
    assert Replacements(q, 1, f) == Err("x");
  }

  /** A placeholder with no binding is kept: "SELECT $y" with no bindings
      renders unchanged. */
  lemma UnboundPlaceholder(u: string, f: Foreign)
    requires '$' !in u
    ensures Render(Query(u + "$y", []), f) == Ok(u + "$y")
  {
    var q := Query(u + "$y", []);
    assert Replacements(q, 0, f) == Ok(map[]);
    RenderSinglePlaceholder(q, f, map[], u, "$y", "y", "");
    assert u + "$y" + "" == u + "$y";
  }

  /** The construction check is a substring test, not a placeholder test:
      the name `a` is accepted for a template whose only placeholder is
      `$ab`, and that placeholder then stays unreplaced. A name that does
      not occur at all is refused. */
  lemma SubstringNotPlaceholder(u: string, i: int, f: Foreign)
    requires '$' !in u
    ensures NamesOccur(u + "$ab", [("a", Int(i))])
    ensures Render(Query(u + "$ab", [("a", Int(i))]), f) == Ok(u + "$ab")
    ensures !NamesOccur("SELECT $y", [("x", Int(i))])
  {
    var t := u + "$ab";
    assert t[|u| + 1..|u| + 2] == "a";
    assert OccursAt("a", t, |u| + 1);
    var q := Query(t, [("a", Int(i))]);
    var m := map["a" := Decimal.IntToString(i)];
    assert Replacements(q, 1, f) == Ok(m);
    RenderSinglePlaceholder(q, f, m, u, "$ab", "ab", "");
    assert u + "$ab" + "" == u + "$ab";
    var w := "SELECT $y";
    forall j: int
      ensures !OccursAt("x", w, j)
    {
      if 0 <= j && j + 1 <= |w| {
        assert w[j..j + 1][0] == w[j];
      }
    }
    assert !Occurs([("x", Int(i))][0].0, w);
  }

  /** A '$' that starts no placeholder, such as DuckDB's positional
      parameter "$1", is kept, and placeholders after it are still
      replaced. */
  lemma PositionalParameterKept(u: string, f: Foreign)
    requires '$' !in u
    ensures Render(Query(u + "$1 = $x", [("x", Null)]), f) == Ok(u + "$1 = null")
  {
    var q := Query(u + "$1 = $x", [("x", Null)]);
    var m := map["x" := "null"];
    assert Replacements(q, 1, f) == Ok(m);
    var v := "1 = " + "$x";
    assert "$1 = $x" == "$" + v;
    assert !SafeTemplate.StartsBraced("$" + v);
    calc {
      SafeTemplate.Substitute(u + "$1 = $x", m);
    ==
      SafeTemplate.Substitute(u + ("$" + v), m);
    == { SafeTemplate.SubstituteLiteralPrefix(u, "$" + v, m); }
      u + SafeTemplate.Substitute("$" + v, m);
    == { SafeTemplate.StrayDollar(v, m); }
      u + ("$" + SafeTemplate.Substitute("1 = " + "$x", m));
    == { SafeTemplate.SubstituteLiteralPrefix("1 = ", "$x", m);
         SafeTemplate.NamedPlaceholder("x", "", m);
         SafeTemplate.NoDollarUnchanged("", m);
         assert "$x" + "" == "$x"; }
      u + ("$" + ("1 = " + ("null" + "")));
    }
    assert "$" + ("1 = " + ("null" + "")) == "$1 = null";
  }

  /** Replacement text is never scanned again: a string bound to `a` that
      itself reads "$x" is inserted (escaped and quoted) as it is, while
      the template's own "$x" becomes `x`'s value. */
  lemma NoReexpansion(u: string, f: Foreign)
    requires '$' !in u
    ensures Render(Query(u + "$a, $x", [("a", Text("$x")), ("x", Int(1))]), f)
         == Ok(u + ("'" + f.escape("$x") + "'") + ", 1")
  {
    var q := Query(u + "$a, $x", [("a", Text("$x")), ("x", Int(1))]);
    var s := "'" + f.escape("$x") + "'";
    var m := map["a" := s, "x" := "1"];
    assert Replacements(q, 1, f) == Ok(map["a" := s]);
    assert Replacements(q, 2, f) == Ok(m);
    var v := ", $x";
    assert v == ", " + "$" + "x" + "";
    assert u + "$a, $x" == u + "$" + "a" + v;
    SafeTemplate.NoDollarUnchanged("", m);
    calc {
      SafeTemplate.Substitute(u + "$a, $x", m);
    ==
      SafeTemplate.Substitute(u + "$" + "a" + v, m);
    == { PlaceholderAfterText(u, "a", v, m); }
      u + s + SafeTemplate.Substitute(v, m);
    ==
      u + s + SafeTemplate.Substitute(", " + "$" + "x" + "", m);
    == { PlaceholderAfterText(", ", "x", "", m); }
      u + s + (", " + "1" + "");
    }
    assert u + s + (", " + "1" + "") == u + s + ", 1";
  }

  /** `collect_dataframes` never fails: it finds the table even where
      `to_string` fails on an unsupported binding. */
  lemma CollectDespiteUnsupported(f: Foreign)
    ensures Render(Query("SELECT * FROM $t, $bad", [("t", Table(7)), ("bad", Other)]), f)
         == Err("bad")
    ensures Collect(Query("SELECT * FROM $t, $bad", [("t", Table(7)), ("bad", Other)]))
         == map[Alias(7) := 7]
  {
    var q := Query("SELECT * FROM $t, $bad", [("t", Table(7)), ("bad", Other)]);
    assert Replacements(q, 0, f) == Ok(map[]);
    assert Replacements(q, 1, f).Ok?;
    assert Replacements(q, 2, f) == Err("bad");
    assert CollectPrefix(q, 1) == map[Alias(7) := 7];
  }

  /** A table reached along two paths, directly and through a nested
      query, is collected once. */
  lemma SharedTableOnce()
    ensures Collect(Query("SELECT * FROM $a JOIN ($s)",
                          [("a", Table(5)), ("s", Nested(Query("SELECT * FROM $b", [("b", Table(5))])))]))
         == map[Alias(5) := 5]
  {
    var inner := Query("SELECT * FROM $b", [("b", Table(5))]);
    var q := Query("SELECT * FROM $a JOIN ($s)", [("a", Table(5)), ("s", Nested(inner))]);
    assert CollectPrefix(inner, 1) == map[Alias(5) := 5];
    assert CollectPrefix(q, 1) == map[Alias(5) := 5];
    assert CollectPrefix(q, 2) == map[Alias(5) := 5] + Collect(inner);
  }
}
