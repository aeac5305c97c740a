/**
 * What `Module::bind` and `binder::bind` guarantee about a whole module, derived from
 * the agreement of every bind step with its outline (module Binding).
 */
module BindingFacts {
  import opened Wrappers
  import opened Binder
  import opened Syntax
  import opened Binding

  /** The entry a top-level statement at position `i` of a run contributes. */
  function StatementEntryAt(ss: seq<Statement>, owner: NodeId, offset: nat, i: nat): Entry
    requires i < |ss| && IsDeclaration(ss[i])
  {
    Entry(StatementName(ss[i]), Declaration(Child(owner, offset + i), StatementMeaning(ss[i])))
  }

  /** The node of the `i`-th child of a run that starts at `offset` under `owner`. */
  function Position(owner: NodeId, offset: nat, i: nat): NodeId {
    Child(owner, offset + i)
  }

  lemma StatementOwnSlot(s: Statement, id: NodeId)
    ensures id in OutlineStatement(s, id).slots
  {
  }

  /** Every statement of a run gets a parent slot in the run's outline. */
  lemma {:induction false} StatementSlots(ss: seq<Statement>, owner: NodeId, offset: nat)
    ensures forall i | 0 <= i < |ss| :: Position(owner, offset, i) in OutlineStatements(ss, owner, offset).slots
    decreases ss
  {
    if ss != [] {
      StatementSlots(ss[1..], owner, offset + 1);
      StatementOwnSlot(ss[0], Child(owner, offset));
      forall i | 0 <= i < |ss|
        ensures Position(owner, offset, i) in OutlineStatements(ss, owner, offset).slots
      {
        if i > 0 {
          assert Position(owner, offset, i) == Position(owner, offset + 1, i - 1);
        }
      }
    }
  }

  /** The entries of a run are exactly the declarations of its Var and TypeAlias statements. */
  lemma {:induction false} StatementsEntriesMembers(ss: seq<Statement>, owner: NodeId, offset: nat)
    ensures forall e :: e in StatementsEntries(ss, owner, offset) <==>
      exists i | 0 <= i < |ss| && IsDeclaration(ss[i]) :: e == StatementEntryAt(ss, owner, offset, i)
    decreases ss
  {
    if ss != [] {
      StatementsEntriesMembers(ss[1..], owner, offset + 1);
      forall e
        ensures e in StatementsEntries(ss, owner, offset) <==>
          exists i | 0 <= i < |ss| && IsDeclaration(ss[i]) :: e == StatementEntryAt(ss, owner, offset, i)
      {
        if e in StatementsEntries(ss[1..], owner, offset + 1) {
          var i :| 0 <= i < |ss[1..]| && IsDeclaration(ss[1..][i]) && e == StatementEntryAt(ss[1..], owner, offset + 1, i);
          assert e == StatementEntryAt(ss, owner, offset, i + 1);
        }
        if exists i | 0 <= i < |ss| && IsDeclaration(ss[i]) :: e == StatementEntryAt(ss, owner, offset, i) {
          var i :| 0 <= i < |ss| && IsDeclaration(ss[i]) && e == StatementEntryAt(ss, owner, offset, i);
          if i > 0 {
            assert e == StatementEntryAt(ss[1..], owner, offset + 1, i - 1);
          }
        }
      }
    }
  }

  /** The slot a run's entry declares at. */
  function EntrySlot(e: Entry): int {
    if e.declaration.node.Child? then e.declaration.node.slot else -1
  }

  /** The entries of a run come in the order of their statements. */
  lemma {:induction false} StatementsEntriesOrdered(ss: seq<Statement>, owner: NodeId, offset: nat)
    ensures forall e | e in StatementsEntries(ss, owner, offset) :: offset <= EntrySlot(e) < offset + |ss|
    ensures forall a, b | 0 <= a < b < |StatementsEntries(ss, owner, offset)| ::
      EntrySlot(StatementsEntries(ss, owner, offset)[a]) < EntrySlot(StatementsEntries(ss, owner, offset)[b])
    decreases ss
  {
    if ss != [] {
      var head := StatementEntries(ss[0], Child(owner, offset));
      var rest := StatementsEntries(ss[1..], owner, offset + 1);
      var all := StatementsEntries(ss, owner, offset);
      StatementsEntriesOrdered(ss[1..], owner, offset + 1);
      assert all == head + rest;
      assert forall e | e in head :: EntrySlot(e) == offset;
      forall a, b | 0 <= a < b < |all|
        ensures EntrySlot(all[a]) < EntrySlot(all[b])
      {
        if a < |head| {
          assert all[a] in head;
          assert all[b] == rest[b - |head|] && all[b] in rest;
        } else {
          assert all[a] == rest[a - |head|] && all[b] == rest[b - |head|];
        }
      }
    }
  }

  /** Two top-level declarations of the module share a name and a meaning. */
  predicate TopLevelClash(m: Module) {
    exists i, j | 0 <= i < j < |m.statements| ::
      && IsDeclaration(m.statements[i]) && IsDeclaration(m.statements[j])
      && StatementName(m.statements[i]) == StatementName(m.statements[j])
      && StatementMeaning(m.statements[i]) == StatementMeaning(m.statements[j])
  }

  /** A clash between two top-level declarations makes the module's declarations refused. */
  lemma ClashIsRefused(m: Module)
    requires TopLevelClash(m)
    ensures DeclareAll(map[], StatementsEntries(m.statements, Root, 0)).Err?
  {
    var ss := m.statements;
    var entries := StatementsEntries(ss, Root, 0);
    StatementsEntriesMembers(ss, Root, 0);
    var i, j :| 0 <= i < j < |ss| && IsDeclaration(ss[i]) && IsDeclaration(ss[j])
      && StatementName(ss[i]) == StatementName(ss[j]) && StatementMeaning(ss[i]) == StatementMeaning(ss[j]);
    assert StatementEntryAt(ss, Root, 0, i) in entries;
    assert StatementEntryAt(ss, Root, 0, j) in entries;
    var a :| 0 <= a < |entries| && entries[a] == StatementEntryAt(ss, Root, 0, i);
    var b :| 0 <= b < |entries| && entries[b] == StatementEntryAt(ss, Root, 0, j);
    DeclareAllRefusesDuplicates(entries);
    if a < b {
      assert entries[a].name == entries[b].name && entries[a].declaration.meaning == entries[b].declaration.meaning;
    } else {
      assert b != a;
      assert entries[b].name == entries[a].name && entries[b].declaration.meaning == entries[a].declaration.meaning;
    }
  }

  /** The module's declarations are refused only over a clash between two top-level declarations. */
  lemma RefusalIsClash(m: Module)
    requires DeclareAll(map[], StatementsEntries(m.statements, Root, 0)).Err?
    ensures TopLevelClash(m)
  {
    var ss := m.statements;
    var entries := StatementsEntries(ss, Root, 0);
    StatementsEntriesMembers(ss, Root, 0);
    StatementsEntriesOrdered(ss, Root, 0);
    DeclareAllRefusesDuplicates(entries);
    var a, b :| 0 <= a < b < |entries| && entries[a].name == entries[b].name
      && entries[a].declaration.meaning == entries[b].declaration.meaning;
    assert entries[a] in entries && entries[b] in entries;
    var i :| 0 <= i < |ss| && IsDeclaration(ss[i]) && entries[a] == StatementEntryAt(ss, Root, 0, i);
    var j :| 0 <= j < |ss| && IsDeclaration(ss[j]) && entries[b] == StatementEntryAt(ss, Root, 0, j);
    assert EntrySlot(entries[a]) == i && EntrySlot(entries[b]) == j;
  }

  /**
   * Binding a module fails exactly when two top-level declarations clash in one
   * namespace, or some scope inside the statements refuses its declarations.
   */
  lemma ModuleFailsIff(m: Module)
    ensures BindModule(m).error.Some? <==>
      TopLevelClash(m) || !OutlineStatements(m.statements, Root, 0).accepted
  {
    if TopLevelClash(m) {
      ClashIsRefused(m);
    }
    if DeclareAll(map[], StatementsEntries(m.statements, Root, 0)).Err? {
      RefusalIsClash(m);
    }
  }

  /** After a successful bind every top-level statement has the module as its parent. */
  lemma TopLevelStatementsBound(m: Module)
    requires BindModule(m).error.None?
    ensures forall i | 0 <= i < |m.statements| ::
      Position(Root, 0, i) in BindModule(m).state.parents && BindModule(m).state.parents[Position(Root, 0, i)] == Root
  {
    StatementSlots(m.statements, Root, 0);
    assert BindModule(m).state.parents.Keys == OutlineStatements(m.statements, Root, 0).slots;
  }

  /**
   * After a successful bind the module's `locals` holds, under each name, exactly the
   * top-level Var and TypeAlias statements of that name with their meanings, and every
   * such statement is there: declarations nested in functions, signatures or object
   * types never reach it.
   */
  lemma ModuleLocals(m: Module)
    requires BindModule(m).error.None?
    ensures Root in BindModule(m).state.tables
    ensures forall n | n in BindModule(m).state.tables[Root] ::
      forall d :: d in BindModule(m).state.tables[Root][n] <==>
        exists i | 0 <= i < |m.statements| && IsDeclaration(m.statements[i]) ::
          StatementName(m.statements[i]) == n && d == Declaration(Child(Root, i), StatementMeaning(m.statements[i]))
    ensures forall i | 0 <= i < |m.statements| && IsDeclaration(m.statements[i]) ::
      StatementName(m.statements[i]) in BindModule(m).state.tables[Root]
  {
    var ss := m.statements;
    var entries := StatementsEntries(ss, Root, 0);
    var t := BindModule(m).state.tables;
    assert DeclareAll(map[], entries) == Ok(t[Root]);
    DeclaredTableContents(entries);
    StatementsEntriesMembers(ss, Root, 0);
    forall n | n in t[Root]
      ensures forall d :: d in t[Root][n] <==>
        exists i | 0 <= i < |ss| && IsDeclaration(ss[i]) ::
          StatementName(ss[i]) == n && d == Declaration(Child(Root, i), StatementMeaning(ss[i]))
    {
      forall d
        ensures d in t[Root][n] <==>
          exists i | 0 <= i < |ss| && IsDeclaration(ss[i]) ::
            StatementName(ss[i]) == n && d == Declaration(Child(Root, i), StatementMeaning(ss[i]))
      {
        if d in t[Root][n] {
          var k :| 0 <= k < |entries| && entries[k].name == n && entries[k].declaration == d;
          assert entries[k] in entries;
          var i :| 0 <= i < |ss| && IsDeclaration(ss[i]) && entries[k] == StatementEntryAt(ss, Root, 0, i);
        }
        if exists i | 0 <= i < |ss| && IsDeclaration(ss[i]) ::
            StatementName(ss[i]) == n && d == Declaration(Child(Root, i), StatementMeaning(ss[i])) {
          var i :| 0 <= i < |ss| && IsDeclaration(ss[i])
            && StatementName(ss[i]) == n && d == Declaration(Child(Root, i), StatementMeaning(ss[i]));
          assert StatementEntryAt(ss, Root, 0, i) in entries;
          var k :| 0 <= k < |entries| && entries[k] == StatementEntryAt(ss, Root, 0, i);
        }
      }
    }
    forall i | 0 <= i < |ss| && IsDeclaration(ss[i])
      ensures StatementName(ss[i]) in t[Root]
    {
      assert StatementEntryAt(ss, Root, 0, i) in entries;
      var k :| 0 <= k < |entries| && entries[k] == StatementEntryAt(ss, Root, 0, i);
    }
  }

  /**
   * After a successful bind every scope table, at any depth, holds at least one and at
   * most two declarations per name, of different meanings.
   */
  lemma TablesWellFormed(m: Module)
    requires BindModule(m).error.None?
    ensures forall o | o in BindModule(m).state.tables :: WellFormedTable(BindModule(m).state.tables[o])
    ensures forall o, n | o in BindModule(m).state.tables && n in BindModule(m).state.tables[o] ::
      1 <= |BindModule(m).state.tables[o][n]| <= 2
  {
    var t := BindModule(m).state.tables;
    var scopes := OutlineModule(m).scopes;
    forall o | o in t
      ensures WellFormedTable(t[o])
    {
      assert o in scopes;
      DeclareAllWellFormed(map[], scopes[o]);
    }
    forall o, n | o in t && n in t[o]
      ensures 1 <= |t[o][n]| <= 2
    {
      AtMostTwoDeclarations(t[o], n);
    }
  }

  /** A non-empty run binds its first statement, declares it, then binds the rest. */
  lemma RunStep(ss: seq<Statement>, owner: NodeId, offset: nat, table: Table)
    requires ss != []
    ensures BindStatements(ss, owner, offset, table)
         == Chain(Declare(BindStatement(ss[0], Child(owner, offset)), table, StatementEntries(ss[0], Child(owner, offset))),
                  BindStatements(ss[1..], owner, offset + 1,
                                 Declare(BindStatement(ss[0], Child(owner, offset)), table,
                                         StatementEntries(ss[0], Child(owner, offset))).table))
  {
  }

  /**
   * Once a prefix of a run fails, the rest of the run is never bound: the run binds
   * exactly as its failing prefix does.
   */
  lemma {:induction false} FailureStopsRun(ss: seq<Statement>, owner: NodeId, offset: nat, table: Table, k: nat)
    requires k <= |ss|
    requires BindStatements(ss[..k], owner, offset, table).bound.error.Some?
    ensures BindStatements(ss, owner, offset, table) == BindStatements(ss[..k], owner, offset, table)
    decreases k
  {
    var prefix := ss[..k];
    assert prefix != [] && prefix[0] == ss[0] && prefix[1..] == ss[1..][..k - 1];
    RunStep(ss, owner, offset, table);
    RunStep(prefix, owner, offset, table);
    var first := Declare(BindStatement(ss[0], Child(owner, offset)), table, StatementEntries(ss[0], Child(owner, offset)));
    if first.bound.error.None? {
      FailureStopsRun(ss[1..], owner, offset + 1, first.table, k - 1);
    }
  }

  /**
   * `Module::bind` stops at the first error: when binding the first `k` statements
   * fails, the module binds exactly as the module of those `k` statements, and the
   * statements after them are left unbound.
   */
  lemma ModuleStopsAtFirstError(m: Module, k: nat)
    requires k <= |m.statements|
    requires BindStatements(m.statements[..k], Root, 0, map[]).bound.error.Some?
    ensures BindModule(m) == BindModule(Module(m.statements[..k]))
  {
    FailureStopsRun(m.statements, Root, 0, map[], k);
  }
}
