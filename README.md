# ezduckdb `SQL` query templates in Dafny

ezduckdb wraps DuckDB with a small query object, `SQL`. It holds a template
string with `$name` placeholders and a set of keyword bindings. It offers
three operations:

- **Construction.** Every binding name must occur in the template text.
- **`to_string`.** Each binding is rendered by kind, then one pass of
  Python's `string.Template.safe_substitute` is made over the template:
  - a DataFrame becomes the alias `df_<id>`;
  - a nested `SQL` becomes its own rendering in parentheses;
  - a string or path is escaped and single-quoted;
  - an int, float or bool becomes its `str()`;
  - `None` becomes `null`;
  - anything else is an error naming the binding.
- **`collect_dataframes`.** It walks the nested queries and gathers every
  DataFrame under the same alias `to_string` writes, so the engine can
  register them by that name.

This project models that object and proves what it promises.

- `decimal.dfy` (module `Decimal`): Python's `str(int)`. The table aliases
  and the rendering of `int` bindings use it. It is proved to round-trip
  through an independent parser, and so to be injective.
- `template.dfy` (module `SafeTemplate`): `safe_substitute` as a
  one-pass scanner, following the default pattern of `string.Template`.
  That pattern recognises, in this order:
  - an escaped `$$`;
  - `$name`, where a name is `[_A-Za-z][_A-Za-z0-9]*`, taken as long as
    possible;
  - `${name}`;
  - a stray `$`, which is kept, such as DuckDB's positional parameter
    `$1`.

  The lemmas state the one-pass behaviour:
  - plain text is copied;
  - a bound placeholder becomes its text, which is never rescanned;
  - an unbound placeholder is kept verbatim;
  - with no bindings, the scan only collapses `$$`.
- `sql.dfy` (module `Sql`): the data model and the three operations.
  - A query is an immutable datatype. It holds the template and the
    bindings in keyword order.
  - A value is `Table(id)`, `Nested(query)`, `Text`, `Int`, `Bool`,
    `Float`, `Null` or `Other`. Because a datatype value cannot contain
    itself, nesting is always finite.
  - `Render` and `Collect` are the recursive functions that say what the
    operations compute.
  - `Construct`, `ToString` and `CollectDataframes` are methods with the
    source's loops. `ToString` is proved to equal `Render` and
    `CollectDataframes` to equal `Collect`. `Construct` is proved against
    the predicate `NamesOccur`, which says every binding name occurs in the
    template, in both directions.
- `sql_properties.dfy` (module `SqlProperties`): properties of the whole
  query tree:
  - when rendering fails, and with which name;
  - what the replacement map holds;
  - where a bound value lands in the output;
  - `collect_dataframes` returns exactly the reachable tables, one-to-one;
  - every alias `to_string` writes is the key under which
    `collect_dataframes` registers that table.
- `sql_examples.dfy` (module `SqlExamples`): the docstring examples and the
  corner cases. Most are stated for every plain-text lead-in before the
  placeholder. `UnsupportedBinding`, `CollectDespiteUnsupported` and
  `SharedTableOnce` use one fixed query, and `IntTexts` fixes two numbers.

The code itself is modelled wherever its documentation says otherwise.

- **Nested query example.** The docstring at `src/ezduckdb/core.py:89-91`
  shows `SQL("SELECT * FROM ($subquery) AS sub", subquery=SQL("SELECT * FROM data"))`
  rendering with one pair of parentheses around the inner query. Line 98
  adds a pair of its own, so the code produces
  `SELECT * FROM ((SELECT * FROM data)) AS sub`. `SqlExamples.NestedBinding`
  states the behaviour of the code.
- **`$name` text can remain after rendering.** A placeholder with no
  binding is kept. `$$name` becomes `$name`. A bound text that itself
  reads `$x` is not expanded.
- **The construction check is a substring test.** A name `a` is accepted
  for a template whose only placeholder is `$ab`.

Routines the model cannot see are fields of a `Foreign` parameter:

- `sqlescape`, from the sqlescapy library;
- Python's `str()` of a float.

Every rendering result holds for every choice of them. `SharedTableOnce`
and `IntTexts` do not render, so they take no such parameter.

## Model

| member | source | states |
|---|---|---|
| `Decimal.NatToString` | src/ezduckdb/core.py:96 | definition of `str()` on a non-negative int; its contract is carried by `Decimal.NatToStringShape`, `Decimal.ParseNatToString` and `Decimal.NatToStringInjective` |
| `Decimal.IntToString` | src/ezduckdb/core.py:101-102 | definition of `str()` on an int; its contract is carried by `Decimal.IntToStringInjective` and `SqlExamples.IntTexts` |
| `SafeTemplate.Substitute` | src/ezduckdb/core.py:107 | definition of one `safe_substitute` pass; its contract is carried by `SafeTemplate.SubstituteLiteralPrefix`, `SafeTemplate.NamedPlaceholder`, `SafeTemplate.BracedPlaceholder`, `SafeTemplate.EscapedDollar`, `SafeTemplate.StrayDollar` and `SafeTemplate.SubstituteNoBindings` |
| `Sql.Alias` | src/ezduckdb/core.py:96 | definition of the `df_<id>` name used both when rendering and when collecting; its contract is carried by `SqlProperties.AliasInjective` and `SqlProperties.TableAliasRegistered` |
| `Sql.RenderValue` | src/ezduckdb/core.py:94-106 | definition of the text one binding is replaced by; its contract is carried by `SqlProperties.RenderValueFails` and the rendering examples |
| `Sql.Replacements` | src/ezduckdb/core.py:93-106 | definition of the `replacements` dict after a prefix of the bindings; its contract is carried by `Sql.ReplacementsErrorStops`, `SqlProperties.ReplacementsFail`, `SqlProperties.ReplacementsKeys`, `SqlProperties.ReplacementsValues` and `SqlProperties.ReplacementsContent` |
| `Sql.Render` | src/ezduckdb/core.py:64-107 | definition of `to_string`; its contract is carried by `Sql.ToString`, `SqlProperties.RenderFails`, `SqlProperties.RenderPlaceholder` and `SqlProperties.RenderUnbound` |
| `Sql.CollectPrefix` | src/ezduckdb/core.py:133-138 | definition of the `dataframes` dict after a prefix of the bindings; its contract is carried by `SqlProperties.CollectPrefixKeyed`, `SqlProperties.CollectPrefixExact` and `SqlProperties.CollectPrefixOfBindings` |
| `Sql.Collect` | src/ezduckdb/core.py:109-139 | definition of `collect_dataframes`; its contract is carried by `Sql.CollectDataframes`, `SqlProperties.CollectExact` and `SqlProperties.CollectOneToOne` |
| `Sql.Contains` | src/ezduckdb/core.py:60 | the executable test is true exactly when the name occurs as a substring of the template at some position |
| `Sql.Construct` | src/ezduckdb/core.py:58-62 | construction succeeds exactly when every binding name occurs in the template, and then keeps the template and bindings unchanged; a failure names a binding that does not occur, and all bindings before it do occur |
| `Sql.ToString` | src/ezduckdb/core.py:93-107 | the loop that fills the replacement map binding by binding, rendering nested queries recursively and stopping at the first unsupported value, returns exactly `Render` |
| `Sql.ReplacementsErrorStops` | src/ezduckdb/core.py:105-106 | once a binding fails, every longer prefix of the bindings fails with the same name, so nothing after the failure is rendered |
| `Sql.CollectDataframes` | src/ezduckdb/core.py:133-139 | the loop that enters tables under their alias and merges the maps of nested queries returns exactly `Collect` |
| `Decimal.NatToStringShape` | src/ezduckdb/core.py:96 | the decimal text of a natural number is non-empty, all digits, and starts with `0` only for zero |
| `Decimal.ParseNatToString` | src/ezduckdb/core.py:96 | reading the decimal text back with an independent parser gives the number again |
| `Decimal.NatToStringInjective` | src/ezduckdb/core.py:136 | distinct numbers have distinct decimal texts |
| `Decimal.IntToStringInjective` | src/ezduckdb/core.py:101-102 | `str(int)` is injective, and its first character is `-` exactly for negative numbers |
| `SafeTemplate.IdRun` | src/ezduckdb/core.py:107 | the placeholder name is the longest run of identifier characters: every character in it is one, and the next is not |
| `SafeTemplate.SubstituteLiteralPrefix` | src/ezduckdb/core.py:107 | text without `$` is copied verbatim and does not change how the rest is scanned |
| `SafeTemplate.NoDollarUnchanged` | src/ezduckdb/core.py:107 | a template without `$` comes out unchanged whatever the bindings |
| `SafeTemplate.NamedPlaceholder` | src/ezduckdb/core.py:107 | `$name`, not followed by another identifier character, becomes its binding or stays `$name` when unbound; the inserted text is not rescanned and the scan resumes after the name |
| `SafeTemplate.BracedPlaceholder` | src/ezduckdb/core.py:107 | `${name}` becomes its binding, or stays `${name}` when unbound |
| `SafeTemplate.StrayDollar` | src/ezduckdb/core.py:107 | a `$` that starts neither `$$`, a named nor a braced placeholder is kept as it is whatever the bindings, and the scan continues right after it |
| `SafeTemplate.EscapedDollar` | src/ezduckdb/core.py:107 | `$$` becomes a single `$` and does not start a placeholder |
| `SafeTemplate.NamedShape` | src/ezduckdb/core.py:107 | a `$` followed by an identifier start splits into `$`, a well-formed name and text that cannot extend the name |
| `SafeTemplate.BracedShape` | src/ezduckdb/core.py:107 | a braced placeholder splits into `${`, a well-formed name, `}` and the rest |
| `SafeTemplate.NamedNoBindingsStep` | src/ezduckdb/core.py:107 | with no bindings, an unbound `$name` is copied as `Unescape` copies it |
| `SafeTemplate.BracedNoBindingsStep` | src/ezduckdb/core.py:107 | with no bindings, an unbound `${name}` is copied as `Unescape` copies it |
| `SafeTemplate.SubstituteNoBindings` | src/ezduckdb/core.py:107 | with no bindings the scan equals the reference `Unescape`, which only collapses `$$`: every placeholder and stray `$` is left as written |
| `SqlProperties.RenderValueFails` | src/ezduckdb/core.py:94-106 | rendering one value fails exactly when it is unsupported or a nested query holds an unsupported binding, and the error names such a binding |
| `SqlProperties.ReplacementsFail` | src/ezduckdb/core.py:93-106 | building the replacement map over a prefix fails exactly when some binding in it fails, and the error names a failing binding |
| `SqlProperties.RenderFails` | src/ezduckdb/core.py:97-106 | `to_string` fails exactly when some binding at any depth is unsupported, and the error names one of them; no text is produced then |
| `SqlProperties.ReplacementsOfBindings` | src/ezduckdb/core.py:93-106 | the replacement map depends only on the bindings, not on the template |
| `SqlProperties.ReplacementsValues` | src/ezduckdb/core.py:93-106 | with distinct names, every binding name is a key of a successful replacement map, holding its own value's rendering |
| `SqlProperties.ReplacementsKeys` | src/ezduckdb/core.py:93-106 | every key of the replacement map is a binding name |
| `SqlProperties.ReplacementsContent` | src/ezduckdb/core.py:93-106 | with distinct names, a successful map has exactly the binding names as keys, every binding rendered, and each name maps to its own value's rendering |
| `SqlProperties.PlaceholderAfterText` | src/ezduckdb/core.py:107 | plain text, then `$name`, then the rest: the text is kept, the placeholder becomes its binding or stays, and the rest is scanned on its own |
| `SqlProperties.RenderPlaceholder` | src/ezduckdb/core.py:93-107 | where the template has text, then `$name` for a binding, then the rest, the output is the text, then that binding's rendering inserted as is, then the rest rendered with the same bindings |
| `SqlProperties.RenderUnbound` | src/ezduckdb/core.py:107 | a placeholder whose name has no binding stays in the output verbatim |
| `SqlProperties.AliasInjective` | src/ezduckdb/core.py:136 | distinct tables get distinct aliases |
| `SqlProperties.CollectPrefixKeyed` | src/ezduckdb/core.py:133-139 | every entry gathered so far is keyed by the alias of the table it holds |
| `SqlProperties.CollectPrefixExact` | src/ezduckdb/core.py:133-139 | after a prefix of the bindings, the alias of a table is a key exactly when one of those bindings reaches the table, directly or through nested queries |
| `SqlProperties.CollectExact` | src/ezduckdb/core.py:133-139 | `collect_dataframes` keys every table by its alias, and holds a table's alias exactly when the table is reachable at any depth |
| `SqlProperties.CollectOneToOne` | src/ezduckdb/core.py:133-139 | the collected tables are exactly the reachable ones, and no table appears under two keys |
| `SqlProperties.CollectPrefixOfBindings` | src/ezduckdb/core.py:133-138 | the dataframes collected depend only on the bindings, never on the template text |
| `SqlProperties.TableAliasRegistered` | src/ezduckdb/core.py:95-136 | for every table binding, wherever its placeholder sits, the replacement map sets its name to the table's alias, and that alias is a key of the collected map holding the same table |
| `SqlProperties.RenderedAliasIsRegistered` | src/ezduckdb/core.py:95-136 | a table placeholder after plain text is written as the table's alias, which is a key of the collected map mapped to that same table; the rest of the template collects the same map, so the lemma chains to every later table placeholder |
| `SqlExamples.RenderSinglePlaceholder` | src/ezduckdb/core.py:107 | a template with one placeholder and no other `$` renders as the text around it with the placeholder replaced, or kept when unbound |
| `SqlExamples.IntBinding` | src/ezduckdb/core.py:84-86 | an `int` binding is written unquoted as its decimal text, as in `id = 123` |
| `SqlExamples.IntTexts` | src/ezduckdb/core.py:101-102 | the decimal texts of 123 and -45 are `123` and `-45` |
| `SqlExamples.BoolBinding` | src/ezduckdb/core.py:101-102 | a `bool` is written unquoted as `True` or `False` |
| `SqlExamples.NestedBinding` | src/ezduckdb/core.py:88-98 | a nested query is written as its own rendering in parentheses, added to those the template already has |
| `SqlExamples.TextBinding` | src/ezduckdb/core.py:99-100 | a string is written as its escaped text in single quotes |
| `SqlExamples.NullBinding` | src/ezduckdb/core.py:103-104 | `None` is written as the bare word `null` |
| `SqlExamples.UnsupportedBinding` | src/ezduckdb/core.py:105-106 | an unsupported value makes rendering fail with that binding's name |
| `SqlExamples.UnboundPlaceholder` | src/ezduckdb/core.py:107 | a placeholder without a binding renders unchanged |
| `SqlExamples.SubstringNotPlaceholder` | src/ezduckdb/core.py:58-60 | the name `a` passes construction for a template holding only `$ab`, which then stays unreplaced; a name that does not occur is refused |
| `SqlExamples.PositionalParameterKept` | src/ezduckdb/core.py:107 | a `$1` positional parameter is kept, and a placeholder after it is still replaced |
| `SqlExamples.NoReexpansion` | src/ezduckdb/core.py:107 | a bound string reading `$x` is inserted as it is, while the template's own `$x` is replaced by `x`'s value |
| `SqlExamples.CollectDespiteUnsupported` | src/ezduckdb/core.py:134-139 | `collect_dataframes` finds the table where `to_string` fails on an unsupported binding |
| `SqlExamples.SharedTableOnce` | src/ezduckdb/core.py:137-138 | a table reached both directly and through a nested query is collected once |

## Left out

- The `DuckDB` class (`src/ezduckdb/core.py:142-181`) is not modelled. It opens connections, installs extensions, loads AWS credentials, registers tables, runs queries and closes connections: I/O against the external engine.
- `sqlescape` (`src/ezduckdb/core.py:100`) belongs to another library. It is the `escape` field of the `Foreign` parameter, and nothing is proved about how it escapes.
- Python's `str()` of a float (`src/ezduckdb/core.py:102`) is floating-point formatting. A float is an opaque 64-bit token, and its text comes from the `floatText` field of `Foreign`.
- A DataFrame's `id()` and its contents: a table is a natural-number id, and the collected map holds that id rather than the DataFrame object.
- `S3AwarePath` (`src/ezduckdb/paths.py` is not part of this model) is treated as a `Text` value, like `str`.
- The error text: the `ValueError` message `Invalid type for <key>` is kept as the key alone. The bare `AssertionError` of construction is modelled as an error carrying the first missing name. Python's `-O` flag, which disables that assertion, is not modelled.
- Python's keyword arguments always have distinct names. The model's bindings are a sequence, so lemmas that need distinct names (`RenderPlaceholder`, `ReplacementsValues`, `ReplacementsContent`, `TableAliasRegistered`, `RenderedAliasIsRegistered`) require them.
- `ezduckdb/__init__.py` only re-exports names.
- Python's runtime limits are not modelled. The first is CPython's limit on the digits of `str(int)`: 4300 by default since 3.11 and in the 3.8-3.10 security releases. Above it, `str(value)` at `src/ezduckdb/core.py:102` raises `ValueError`. `Render` instead returns the full decimal text, so `x=10**4300` renders in the model but raises in Python.
- The recursion limit is not modelled either. Past it, the recursive calls at `src/ezduckdb/core.py:98` and `:138` raise `RecursionError`, while `Render`, `ToString`, `Collect` and `CollectDataframes` succeed at any nesting depth.
