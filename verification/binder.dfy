/**
 * The binder's shared vocabulary, src/binder.rs: meanings, scope tables and symbols,
 * and the arena that replaces the reference-counted parent slots and tables.
 *
 * A node is addressed by its path from the module root: the module is `Root`, its i-th
 * statement `Child(Root, i)`, and so on, so the syntactic parent of a non-root node `k`
 * is `k.up`. The binding state holds the parent slot of every node that has one, and
 * the scope table of every scope owner, keyed by the owner's path; an owner with no
 * entry has an empty table, which is how a freshly parsed node starts.
 *
 * `declare_symbol` is called by the source but not defined in src/binder.rs; its
 * behaviour here is an assumed contract: look the declaration up by name, refuse a
 * second declaration of the same meaning, and append one of the other meaning.
 */
module Binder {
  import opened Wrappers
  import opened Errors

  /** The two namespaces a declaration can belong to. */
  datatype Meaning = Value | Type

  /** The position of a node: the root, or the `slot`-th child position of the node at `up`. */
  datatype NodeId = Root | Child(up: NodeId, slot: nat)

  /** A weak reference from a symbol to its declaring node, tagged with that node's meaning. */
  datatype Declaration = Declaration(node: NodeId, meaning: Meaning)

  /** The declarations of one name in one scope, in declaration order. */
  type Symbol = seq<Declaration>

  type Table = map<string, Symbol>

  /** Some declaration of `s` has meaning `m`. */
  predicate HasMeaning(s: Symbol, m: Meaning) {
    exists i | 0 <= i < |s| :: s[i].meaning == m
  }

  /** The assumed `declare_symbol`. */
  function DeclareSymbol(table: Table, name: string, d: Declaration): (r: Result<Table, BindingError>)
    ensures r.Err? <==> name in table && HasMeaning(table[name], d.meaning)
    ensures r.Ok? ==> name in r.value && r.value[name] == (if name in table then table[name] else []) + [d]
    ensures r.Ok? ==> forall n | n in table :: n in r.value && table[n] <= r.value[n]
    ensures r.Ok? ==> r.value.Keys == table.Keys + {name}
    ensures r.Ok? ==> forall n | n in r.value && n != name :: r.value[n] == table[n]
  {
    if name in table then
      if HasMeaning(table[name], d.meaning) then Err(CannotRedeclareError)
      else Ok(table[name := table[name] + [d]])
    else Ok(table[name := [d]])
  }

  /** Every symbol has at least one declaration and at most one per meaning. */
  predicate WellFormedTable(t: Table) {
    forall n | n in t ::
      && |t[n]| >= 1
      && forall i, j | 0 <= i < j < |t[n]| :: t[n][i].meaning != t[n][j].meaning
  }

  /** Declaring keeps a table well formed. */
  lemma DeclarePreservesWellFormed(table: Table, name: string, d: Declaration)
    requires WellFormedTable(table)
    requires DeclareSymbol(table, name, d).Ok?
    ensures WellFormedTable(DeclareSymbol(table, name, d).value)
  {
    var t := DeclareSymbol(table, name, d).value;
    if name in table {
      var s := table[name];
      assert t[name] == s + [d];
      forall i, j | 0 <= i < j < |t[name]|
        ensures t[name][i].meaning != t[name][j].meaning
      {
        if j == |s| {
          assert !HasMeaning(s, d.meaning);
          assert t[name][i] == s[i];
        }
      }
    }
  }

  lemma PigeonholeMeanings(a: Meaning, b: Meaning, c: Meaning)
    ensures a == b || a == c || b == c
  {
  }

  /** With two meanings, a well-formed symbol holds at most two declarations. */
  lemma AtMostTwoDeclarations(t: Table, n: string)
    requires WellFormedTable(t) && n in t
    ensures |t[n]| <= 2
  {
    if |t[n]| > 2 {
      PigeonholeMeanings(t[n][0].meaning, t[n][1].meaning, t[n][2].meaning);
      assert false;
    }
  }

  /** The arena: parent slots and scope tables, keyed by node. */
  datatype BindState = BindState(parents: map<NodeId, NodeId>, tables: map<NodeId, Table>)

  /** `create_empty_parent` for every node, and no table filled yet. */
  const EmptyState := BindState(map[], map[])

  /** The state a bind step leaves, and the error that aborted it, if any. */
  datatype Bound = Bound(state: BindState, error: Option<BindingError>)

  /** One entry a declaring node contributes to its scope: its name and its declaration. */
  datatype Entry = Entry(name: string, declaration: Declaration)

  /** `declare_symbol` for each entry in order, stopping at the first refusal. */
  function DeclareAll(table: Table, entries: seq<Entry>): Result<Table, BindingError>
    decreases |entries|
  {
    if entries == [] then Ok(table)
    else
      match DeclareSymbol(table, entries[0].name, entries[0].declaration)
      case Err(e) => Err(e)
      case Ok(t) => DeclareAll(t, entries[1..])
  }

  /** Declaring entries one after another is declaring them all at once. */
  lemma DeclareAllAppend(table: Table, entries: seq<Entry>, e: Entry)
    requires DeclareAll(table, entries).Ok?
    ensures DeclareAll(table, entries + [e])
         == DeclareSymbol(DeclareAll(table, entries).value, e.name, e.declaration)
    decreases |entries|
  {
    if entries != [] {
      assert (entries + [e])[1..] == entries[1..] + [e];
      DeclareAllAppend(DeclareSymbol(table, entries[0].name, entries[0].declaration).value, entries[1..], e);
    }
  }

  /** Declaring two lists in turn is declaring their concatenation. */
  lemma {:induction false} DeclareAllConcat(table: Table, first: seq<Entry>, second: seq<Entry>)
    ensures DeclareAll(table, first + second) ==
      if DeclareAll(table, first).Err? then DeclareAll(table, first)
      else DeclareAll(DeclareAll(table, first).value, second)
    decreases |first|
  {
    if first != [] {
      assert (first + second)[1..] == first[1..] + second;
      if DeclareSymbol(table, first[0].name, first[0].declaration).Ok? {
        DeclareAllConcat(DeclareSymbol(table, first[0].name, first[0].declaration).value, first[1..], second);
      }
    } else {
      assert first + second == second;
    }
  }

  /** Every table the declarations build from a well-formed one is well formed. */
  lemma {:induction false} DeclareAllWellFormed(table: Table, entries: seq<Entry>)
    requires WellFormedTable(table)
    requires DeclareAll(table, entries).Ok?
    ensures WellFormedTable(DeclareAll(table, entries).value)
    decreases |entries|
  {
    if entries != [] {
      DeclarePreservesWellFormed(table, entries[0].name, entries[0].declaration);
      DeclareAllWellFormed(DeclareSymbol(table, entries[0].name, entries[0].declaration).value, entries[1..]);
    }
  }

  /** Once a list of declarations is refused, appending more keeps it refused. */
  lemma DeclareAllFailureSticks(table: Table, entries: seq<Entry>, more: seq<Entry>)
    requires DeclareAll(table, entries).Err?
    ensures DeclareAll(table, entries + more).Err?
    decreases |entries|
  {
    if entries != [] {
      assert (entries + more)[1..] == entries[1..] + more;
      if DeclareSymbol(table, entries[0].name, entries[0].declaration).Ok? {
        DeclareAllFailureSticks(DeclareSymbol(table, entries[0].name, entries[0].declaration).value, entries[1..], more);
      }
    }
  }

  /**
   * A name is refused exactly when two entries for it share a meaning (starting from
   * an empty scope): the table is a faithful two-namespace symbol table.
   */
  lemma {:induction false} DeclareAllRefusesDuplicates(entries: seq<Entry>)
    ensures DeclareAll(map[], entries).Err? <==>
      exists i, j | 0 <= i < j < |entries| ::
        entries[i].name == entries[j].name && entries[i].declaration.meaning == entries[j].declaration.meaning
  {
    if entries == [] {
    } else {
      var prefix := entries[..|entries| - 1];
      var last := entries[|entries| - 1];
      assert entries == prefix + [last];
      DeclareAllRefusesDuplicates(prefix);
      if DeclareAll(map[], prefix).Err? {
        DeclareAllFailureSticks(map[], prefix, [last]);
        var i, j :| 0 <= i < j < |prefix| && prefix[i].name == prefix[j].name
          && prefix[i].declaration.meaning == prefix[j].declaration.meaning;
        assert entries[i] == prefix[i] && entries[j] == prefix[j];
      } else {
        DeclareAllAppend(map[], prefix, last);
        var t := DeclareAll(map[], prefix).value;
        DeclaredTableContents(prefix);
        if DeclareSymbol(t, last.name, last.declaration).Err? {
          var k :| 0 <= k < |t[last.name]| && t[last.name][k].meaning == last.declaration.meaning;
          assert t[last.name][k] in t[last.name];
          var i :| 0 <= i < |prefix| && prefix[i].name == last.name && prefix[i].declaration == t[last.name][k];
          assert entries[i] == prefix[i] && entries[|entries| - 1] == last;
        } else {
          forall i, j | 0 <= i < j < |entries| && entries[i].name == entries[j].name
            ensures entries[i].declaration.meaning != entries[j].declaration.meaning
          {
            if j < |prefix| {
              assert entries[i] == prefix[i] && entries[j] == prefix[j];
            } else {
              assert entries[i] == prefix[i];
              assert prefix[i].declaration in t[last.name];
              var k :| 0 <= k < |t[last.name]| && t[last.name][k] == prefix[i].declaration;
            }
          }
        }
      }
    }
  }

  /** The declarations of the entries named `n`, in entry order. */
  function DeclarationsNamed(entries: seq<Entry>, n: string): seq<Declaration>
    decreases |entries|
  {
    if entries == [] then []
    else (if entries[0].name == n then [entries[0].declaration] else []) + DeclarationsNamed(entries[1..], n)
  }

  /** The symbol `n` has in `table`, empty when `n` is not declared there. */
  function SymbolOf(table: Table, n: string): Symbol {
    if n in table then table[n] else []
  }

  /** One declaration appends to the symbol of its own name and to no other. */
  lemma DeclareSymbolAppends(table: Table, e: Entry, n: string)
    requires DeclareSymbol(table, e.name, e.declaration).Ok?
    ensures SymbolOf(DeclareSymbol(table, e.name, e.declaration).value, n)
         == SymbolOf(table, n) + DeclarationsNamed([e], n)
  {
  }

  /**
   * A successful run appends to each name's symbol the declarations of the entries with
   * that name, in entry order.
   */
  lemma {:induction false} DeclareAllInEntryOrder(table: Table, entries: seq<Entry>, n: string)
    requires DeclareAll(table, entries).Ok?
    ensures SymbolOf(DeclareAll(table, entries).value, n) == SymbolOf(table, n) + DeclarationsNamed(entries, n)
    decreases |entries|
  {
    if entries != [] {
      var e := entries[0];
      var t := DeclareSymbol(table, e.name, e.declaration).value;
      assert DeclareAll(table, entries) == DeclareAll(t, entries[1..]);
      DeclareAllInEntryOrder(t, entries[1..], n);
      DeclareSymbolAppends(table, e, n);
      DeclarationsNamedSplit(entries, n);
    }
  }

  lemma DeclarationsNamedSplit(entries: seq<Entry>, n: string)
    requires entries != []
    ensures DeclarationsNamed(entries, n) == DeclarationsNamed([entries[0]], n) + DeclarationsNamed(entries[1..], n)
  {
    assert [entries[0]][1..] == [];
  }

  /**
   * After a successful run from an empty scope, every name's symbol holds exactly the
   * declarations of the entries with that name; `DeclareAllInEntryOrder` gives their order.
   */
  lemma {:induction false} DeclaredTableContents(entries: seq<Entry>)
    requires DeclareAll(map[], entries).Ok?
    ensures forall n | n in DeclareAll(map[], entries).value ::
      forall d :: d in DeclareAll(map[], entries).value[n] <==>
        exists i | 0 <= i < |entries| :: entries[i].name == n && entries[i].declaration == d
    ensures forall i | 0 <= i < |entries| :: entries[i].name in DeclareAll(map[], entries).value
  {
    if entries != [] {
      var prefix := entries[..|entries| - 1];
      var last := entries[|entries| - 1];
      assert entries == prefix + [last];
      if DeclareAll(map[], prefix).Err? {
        DeclareAllFailureSticks(map[], prefix, [last]);
      }
      DeclaredTableContents(prefix);
      DeclareAllAppend(map[], prefix, last);
      var t := DeclareAll(map[], prefix).value;
      var t' := DeclareAll(map[], entries).value;
      assert t' == DeclareSymbol(t, last.name, last.declaration).value;
      forall n | n in t'
        ensures forall d :: d in t'[n] <==>
          exists i | 0 <= i < |entries| :: entries[i].name == n && entries[i].declaration == d
      {
        forall d
          ensures d in t'[n] <==> exists i | 0 <= i < |entries| :: entries[i].name == n && entries[i].declaration == d
        {
          if d in t'[n] {
            if n == last.name && (n !in t || d !in t[n]) {
              assert entries[|entries| - 1].name == n;
            } else {
              var i :| 0 <= i < |prefix| && prefix[i].name == n && prefix[i].declaration == d;
              assert entries[i] == prefix[i];
            }
          }
          if exists i | 0 <= i < |entries| :: entries[i].name == n && entries[i].declaration == d {
            var i :| 0 <= i < |entries| && entries[i].name == n && entries[i].declaration == d;
            if i < |prefix| {
              assert prefix[i] == entries[i];
              assert d in t[n];
              assert t[n] <= t'[n];
            }
          }
        }
      }
      forall i | 0 <= i < |entries|
        ensures entries[i].name in t'
      {
        if i < |prefix| { assert entries[i] == prefix[i]; }
      }
    }
  }
}
