/** Python's `string.Template(t).safe_substitute(m)`, the last step of
    `SQL.to_string`. The template pattern of `string.Template` recognises, at
    each '$', in this order: an escaped "$$" (written as one '$'), a named
    placeholder "$name", a braced placeholder "${name}", and otherwise a
    stray '$' (kept as it is). A name is `[_A-Za-z][_A-Za-z0-9]*`, taken as
    long as possible. In the safe variant a placeholder whose name is not in
    the map is copied unchanged. The scan is one left-to-right pass: text
    that a placeholder is replaced by is never scanned again. */
module SafeTemplate {

  predicate IsIdStart(c: char) {
    c == '_' || 'a' <= c <= 'z' || 'A' <= c <= 'Z'
  }

  predicate IsIdChar(c: char) {
    IsIdStart(c) || '0' <= c <= '9'
  }

  /** A name that a placeholder can carry. */
  predicate IsIdentifier(name: string) {
    |name| >= 1 && IsIdStart(name[0]) && forall i :: 0 <= i < |name| ==> IsIdChar(name[i])
  }

  /** Length of the longest prefix of `s` made of identifier characters. */
  function IdRun(s: string): (n: nat)
    ensures n <= |s|
    ensures forall j :: 0 <= j < n ==> IsIdChar(s[j])
    ensures n == |s| || !IsIdChar(s[n])
  {
    if s == [] || !IsIdChar(s[0]) then 0 else 1 + IdRun(s[1..])
  }

  /** The text a placeholder becomes: its binding if there is one, otherwise
      its own text `raw`. */
  function Lookup(name: string, raw: string, m: map<string, string>): string {
    if name in m then m[name] else raw
  }

  /** True when `t` starts with a braced placeholder "${name}". */
  predicate StartsBraced(t: string) {
    |t| >= 3 && t[0] == '$' && t[1] == '{' && IsIdStart(t[2])
    && 2 + IdRun(t[2..]) < |t| && t[2 + IdRun(t[2..])] == '}'
  }

  /** `safe_substitute`: one pass over the template. */
  function Substitute(t: string, m: map<string, string>): string
    decreases |t|
  {
    if t == [] then []
    else if t[0] != '$' then [t[0]] + Substitute(t[1..], m)
    else if |t| >= 2 && t[1] == '$' then "$" + Substitute(t[2..], m)
    else if |t| >= 2 && IsIdStart(t[1]) then
      var e := 1 + IdRun(t[1..]);
      Lookup(t[1..e], t[..e], m) + Substitute(t[e..], m)
    else if StartsBraced(t) then
      var e := 2 + IdRun(t[2..]);
      Lookup(t[2..e], t[..e + 1], m) + Substitute(t[e + 1..], m)
    else "$" + Substitute(t[1..], m)
  }

  /** Reference definition of what the scan does when no placeholder is
      bound: every "$$" becomes '$' and everything else is copied. */
  function Unescape(t: string): string
    decreases |t|
  {
    if t == [] then []
    else if |t| >= 2 && t[0] == '$' && t[1] == '$' then "$" + Unescape(t[2..])
    else [t[0]] + Unescape(t[1..])
  }

  /** Text with no '$' in it is copied verbatim, and the scan of what follows
      it is not affected by it. */
  lemma {:induction false} SubstituteLiteralPrefix(u: string, w: string, m: map<string, string>)
    requires '$' !in u
    ensures Substitute(u + w, m) == u + Substitute(w, m)
    decreases |u|
  {
    if u == [] {
      assert u + w == w;
    } else {
      var t := u + w;
      assert u[0] in u;
      assert t[0] == u[0] != '$';
      assert t[1..] == u[1..] + w;
      calc {
        Substitute(t, m);
      ==
        [u[0]] + Substitute(u[1..] + w, m);
      == { SubstituteLiteralPrefix(u[1..], w, m); }
        [u[0]] + (u[1..] + Substitute(w, m));
      == { assert [u[0]] + (u[1..] + Substitute(w, m)) == [u[0]] + u[1..] + Substitute(w, m); }
        [u[0]] + u[1..] + Substitute(w, m);
      == { assert [u[0]] + u[1..] == u; }
        u + Substitute(w, m);
      }
    }
  }

  /** A template with no '$' comes out unchanged whatever the bindings. */
  lemma NoDollarUnchanged(t: string, m: map<string, string>)
    requires '$' !in t
    ensures Substitute(t, m) == t
  {
    SubstituteLiteralPrefix(t, [], m);
    assert t + [] == t;
  }

  lemma {:induction false} IdRunOfIdentifier(name: string, v: string)
    requires forall i :: 0 <= i < |name| ==> IsIdChar(name[i])
    requires v == [] || !IsIdChar(v[0])
    ensures IdRun(name + v) == |name|
    decreases |name|
  {
    if name == [] {
      assert name + v == v;
    } else {
      assert (name + v)[1..] == name[1..] + v;
      IdRunOfIdentifier(name[1..], v);
    }
  }

  /** A named placeholder "$name" not followed by another identifier
      character becomes its binding, or stays "$name" when it has none; the
      binding's text is inserted as is, and scanning resumes after the
      placeholder. */
  lemma NamedPlaceholder(name: string, v: string, m: map<string, string>)
    requires IsIdentifier(name)
    requires v == [] || !IsIdChar(v[0])
    ensures Substitute("$" + name + v, m)
         == (if name in m then m[name] else "$" + name) + Substitute(v, m)
  {
    var t := "$" + name + v;
    assert t[1..] == name + v;
    IdRunOfIdentifier(name, v);
    assert t[1..1 + |name|] == name;
    assert t[..1 + |name|] == "$" + name;
    assert t[1 + |name|..] == v;
  }

  /** A braced placeholder "${name}" becomes its binding, or stays
      "${name}" when it has none. */
  lemma BracedPlaceholder(name: string, v: string, m: map<string, string>)
    requires IsIdentifier(name)
    ensures Substitute("${" + name + "}" + v, m)
         == (if name in m then m[name] else "${" + name + "}") + Substitute(v, m)
  {
    var t := "${" + name + "}" + v;
    assert t[2..] == name + ("}" + v);
    IdRunOfIdentifier(name, "}" + v);
    assert StartsBraced(t);
    assert t[2..2 + |name|] == name;
    assert t[..3 + |name|] == "${" + name + "}";
    assert t[3 + |name|..] == v;
  }

  /** "$$" becomes a single '$' and is not the start of a placeholder: in
      "$$name" the name is copied as plain text. */
  lemma EscapedDollar(v: string, m: map<string, string>)
    ensures Substitute("$$" + v, m) == "$" + Substitute(v, m)
  {
    assert ("$$" + v)[2..] == v;
  }

  /** A '$' that starts neither "$$", a named nor a braced placeholder (as in
      "$1" or a "${" left unclosed) is kept as it is, whatever the bindings,
      and the scan goes on right after it. */
  lemma StrayDollar(v: string, m: map<string, string>)
    requires v == [] || (v[0] != '$' && !IsIdStart(v[0]))
    requires !StartsBraced("$" + v)
    ensures Substitute("$" + v, m) == "$" + Substitute(v, m)
  {
    assert ("$" + v)[1..] == v;
  }

  lemma {:induction false} UnescapeLiteralPrefix(u: string, w: string)
    requires '$' !in u
    ensures Unescape(u + w) == u + Unescape(w)
    decreases |u|
  {
    if u == [] {
      assert u + w == w;
    } else {
      var t := u + w;
      assert u[0] in u;
      assert t[0] == u[0] != '$';
      assert t[1..] == u[1..] + w;
      calc {
        Unescape(t);
      ==
        [u[0]] + Unescape(u[1..] + w);
      == { UnescapeLiteralPrefix(u[1..], w); }
        [u[0]] + (u[1..] + Unescape(w));
      == { assert [u[0]] + (u[1..] + Unescape(w)) == [u[0]] + u[1..] + Unescape(w); }
        [u[0]] + u[1..] + Unescape(w);
      == { assert [u[0]] + u[1..] == u; }
        u + Unescape(w);
      }
    }
  }

  /** Unescape copies a '$' followed by dollar-free text verbatim. */
  lemma UnescapeDollarLiteral(body: string, rest: string)
    requires body != [] && '$' !in body
    ensures Unescape("$" + body + rest) == "$" + body + Unescape(rest)
  {
    var t := "$" + body + rest;
    assert body[0] in body;
    assert t[0] == '$' && t[1] == body[0];
    assert t[1..] == body + rest;
    UnescapeLiteralPrefix(body, rest);
  }

  /** A template starting with '$' and an identifier start splits into
      the placeholder "$name" and the text after the name. */
  lemma NamedShape(t: string)
    requires |t| >= 2 && t[0] == '$' && IsIdStart(t[1])
    ensures var e := 1 + IdRun(t[1..]);
      IsIdentifier(t[1..e]) && (t[e..] == [] || !IsIdChar(t[e..][0]))
      && t == "$" + t[1..e] + t[e..]
  {
    var e := 1 + IdRun(t[1..]);
    assert t[1..][..e - 1] == t[1..e];
    assert e < |t| ==> t[e..][0] == t[1..][e - 1];
  }

  /** A template starting with a braced placeholder splits into
      "${name}" and the text after the closing brace. */
  lemma BracedShape(t: string)
    requires StartsBraced(t)
    ensures var e := 2 + IdRun(t[2..]);
      IsIdentifier(t[2..e]) && t == "${" + t[2..e] + "}" + t[e + 1..]
  {
    var e := 2 + IdRun(t[2..]);
    assert t[2..][..e - 2] == t[2..e];
  }

  /** The named-placeholder case of SubstituteNoBindings: with no bindings
      "$name" is copied, given that the rest of the template is. */
  lemma NamedNoBindingsStep(name: string, rest: string)
    requires IsIdentifier(name)
    requires rest == [] || !IsIdChar(rest[0])
    requires Substitute(rest, map[]) == Unescape(rest)
    ensures Substitute("$" + name + rest, map[]) == Unescape("$" + name + rest)
  {
    NamedPlaceholder(name, rest, map[]);
    assert name[0] in name;
    UnescapeDollarLiteral(name, rest);
  }

  /** The braced-placeholder case of SubstituteNoBindings: with no bindings
      "${name}" is copied, given that the rest of the template is. */
  lemma BracedNoBindingsStep(name: string, rest: string)
    requires IsIdentifier(name)
    requires Substitute(rest, map[]) == Unescape(rest)
    ensures Substitute("${" + name + "}" + rest, map[]) == Unescape("${" + name + "}" + rest)
  {
    var body := "{" + name + "}";
    assert '$' !in body by {
      assert forall i :: 0 <= i < |name| ==> name[i] != '$';
    }
    assert "${" + name + "}" == "$" + body;
    calc {
      Substitute("${" + name + "}" + rest, map[]);
    == { BracedPlaceholder(name, rest, map[]); }
      "${" + name + "}" + Substitute(rest, map[]);
    ==
      "$" + body + Unescape(rest);
    == { UnescapeDollarLiteral(body, rest); }
      Unescape("$" + body + rest);
    }
  }

  /** With no bindings the scan only collapses "$$": every placeholder is
      left verbatim. */
  lemma {:induction false} SubstituteNoBindings(t: string)
    ensures Substitute(t, map[]) == Unescape(t)
    decreases |t|
  {
    if t == [] {
    } else if t[0] != '$' {
      SubstituteNoBindings(t[1..]);
    } else if |t| >= 2 && t[1] == '$' {
      SubstituteNoBindings(t[2..]);
    } else if |t| >= 2 && IsIdStart(t[1]) {
      var e := 1 + IdRun(t[1..]);
      SubstituteNoBindings(t[e..]);
      NamedShape(t);
      NamedNoBindingsStep(t[1..e], t[e..]);
    } else if StartsBraced(t) {
      var e := 2 + IdRun(t[2..]);
      SubstituteNoBindings(t[e + 1..]);
      BracedShape(t);
      BracedNoBindingsStep(t[2..e], t[e + 1..]);
    } else {
      SubstituteNoBindings(t[1..]);
    }
  }
}
