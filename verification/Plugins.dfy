/**
 Loading and unloading plugins (src/UserCommand.cc, src/Server.cc, plugins/Plugin.hh):
 the server's command map, its map of loaded plugins, and the open counts of the
 shared objects.
 */
module Plugins {

  /** Entry `index` of the command table in the shared object of `plugin`. */
  datatype Callback = Callback(plugin: string, index: nat)

  /** The shared objects that exist: each with the command names of its table. */
  type Catalogue = map<string, seq<string>>

  /** `open` counts the open handles of each shared object. */
  datatype Registry = Registry(commands: map<string, Callback>, plugins: set<string>, open: map<string, nat>)

  const EMPTY := Registry(map[], {}, map[])

  /** A load may fail to open its shared object even when it exists. */
  datatype Op = Load(plugin: string, opens: bool) | Unload(plugin: string)

  function OpenCount(open: map<string, nat>, p: string): nat {
    if p in open then open[p] else 0
  }

  /** The command map after the first `k` entries of a table are inserted: an
      insertion does not overwrite. */
  function Insert(cmds: map<string, Callback>, p: string, names: seq<string>, k: nat): map<string, Callback>
    requires k <= |names|
  {
    if k == 0 then cmds
    else
      var c := Insert(cmds, p, names, k - 1);
      if names[k - 1] in c then c else c[names[k - 1] := Callback(p, k - 1)]
  }

  function NameSet(names: seq<string>): set<string> {
    set i | 0 <= i < |names| :: names[i]
  }

  function Close(open: map<string, nat>, p: string): map<string, nat>
    requires OpenCount(open, p) > 0
  {
    open[p := OpenCount(open, p) - 1]
  }

  function AfterLoad(cat: Catalogue, r: Registry, p: string, opens: bool): Registry {
    if p !in cat || !opens then r
    else
      var open := r.open[p := OpenCount(r.open, p) + 1];
      Registry(
        Insert(r.commands, p, cat[p], |cat[p]|),
        r.plugins + {p},
        if p in r.plugins then Close(open, p) else open)
  }

  function AfterUnload(cat: Catalogue, r: Registry, p: string): Registry {
    if p !in r.plugins || p !in cat || OpenCount(r.open, p) == 0 then r
    else Registry(r.commands - NameSet(cat[p]), r.plugins - {p}, Close(r.open, p))
  }

  function Apply(cat: Catalogue, r: Registry, op: Op): Registry {
    match op
    case Load(p, opens) => AfterLoad(cat, r, p, opens)
    case Unload(p) => AfterUnload(cat, r, p)
  }

  function Run(cat: Catalogue, r: Registry, ops: seq<Op>): Registry
    decreases |ops|
  {
    if |ops| == 0 then r else Run(cat, Apply(cat, r, ops[0]), ops[1..])
  }

  // --------------------------------------------------------------- always true

  /** Every callback in the command map is an entry of the table of a loaded plugin,
      under its own name, and it is the first entry of that table with that name. */
  ghost predicate NoDangling(cat: Catalogue, r: Registry) {
    && r.plugins <= cat.Keys
    && forall n :: n in r.commands ==> r.commands[n].plugin in r.plugins && IsEntry(cat, n, r.commands[n])
  }

  predicate IsEntry(cat: Catalogue, n: string, cb: Callback) {
    && cb.plugin in cat
    && cb.index < |cat[cb.plugin]| && cat[cb.plugin][cb.index] == n
    && forall i :: 0 <= i < cb.index ==> cat[cb.plugin][i] != n
  }

  /** A loaded plugin has one open handle, every other shared object none. */
  ghost predicate HandlesConserved(r: Registry) {
    forall p :: OpenCount(r.open, p) == if p in r.plugins then 1 else 0
  }

  ghost predicate Inv(cat: Catalogue, r: Registry) {
    NoDangling(cat, r) && HandlesConserved(r)
  }

  lemma NameSetNext(names: seq<string>, i: nat)
    requires i < |names|
    ensures NameSet(names[..i + 1]) == NameSet(names[..i]) + {names[i]}
  {
    assert forall j :: 0 <= j < i ==> names[..i][j] == names[..i + 1][j];
    assert names[..i + 1][i] == names[i];
    assert forall j :: 0 <= j <= i ==> names[..i + 1][j] == names[i] || names[..i + 1][j] == names[..i][j];
  }

  lemma {:induction false} InsertEffect(cmds: map<string, Callback>, p: string, names: seq<string>, k: nat)
    requires k <= |names|
    ensures var c := Insert(cmds, p, names, k);
            && c.Keys == cmds.Keys + NameSet(names[..k])
            && (forall n :: n in cmds ==> c[n] == cmds[n])
            && (forall n :: n in c && n !in cmds ==>
                  && c[n].plugin == p && c[n].index < k && names[c[n].index] == n
                  && forall i :: 0 <= i < c[n].index ==> names[i] != n)
  {
    if k > 0 {
      InsertEffect(cmds, p, names, k - 1);
      var c := Insert(cmds, p, names, k - 1);
      var x := names[k - 1];
      NameSetNext(names, k - 1);
      forall i | 0 <= i < k - 1 && x !in c ensures names[i] != x {
        assert names[..k - 1][i] in NameSet(names[..k - 1]);
      }
    }
  }

  lemma ApplyKeepsInv(cat: Catalogue, r: Registry, op: Op)
    requires Inv(cat, r)
    ensures Inv(cat, Apply(cat, r, op))
  {
    match op
    case Load(p, opens) =>
      if p in cat && opens {
        InsertEffect(r.commands, p, cat[p], |cat[p]|);
      }
    case Unload(p) =>
      if p in r.plugins {
        var r' := Apply(cat, r, op);
        forall n | n in r'.commands ensures r'.commands[n].plugin in r'.plugins && IsEntry(cat, n, r'.commands[n]) {
          var cb := r.commands[n];
          assert cat[cb.plugin][cb.index] in NameSet(cat[cb.plugin]);
        }
      }
  }

  /** After every sequence of loads, repeated loads, failed loads and unloads, with
      overlapping command names or not. */
  lemma {:induction false} RunKeepsInv(cat: Catalogue, r: Registry, ops: seq<Op>)
    requires Inv(cat, r)
    ensures Inv(cat, Run(cat, r, ops))
    decreases |ops|
  {
    if |ops| > 0 {
      ApplyKeepsInv(cat, r, ops[0]);
      RunKeepsInv(cat, Apply(cat, r, ops[0]), ops[1..]);
    }
  }

  // ------------------------------------------------------ when names do not overlap

  /** No two shared objects have a command name in common. */
  ghost predicate Disjoint(cat: Catalogue) {
    forall p, q, n :: p in cat && q in cat && n in NameSet(cat[p]) && n in NameSet(cat[q]) ==> p == q
  }

  /** Every command of every loaded plugin can be called. */
  ghost predicate Complete(cat: Catalogue, r: Registry) {
    forall p :: p in r.plugins && p in cat ==> NameSet(cat[p]) <= r.commands.Keys
  }

  lemma ApplyKeepsComplete(cat: Catalogue, r: Registry, op: Op)
    requires Disjoint(cat) && Inv(cat, r) && Complete(cat, r)
    ensures Complete(cat, Apply(cat, r, op))
  {
    match op
    case Load(p, opens) =>
      if p in cat && opens {
        InsertEffect(r.commands, p, cat[p], |cat[p]|);
        assert cat[p][..|cat[p]|] == cat[p];
      }
    case Unload(p) =>
  }

  lemma {:induction false} RunKeepsComplete(cat: Catalogue, r: Registry, ops: seq<Op>)
    requires Disjoint(cat) && Inv(cat, r) && Complete(cat, r)
    ensures Complete(cat, Run(cat, r, ops))
    decreases |ops|
  {
    if |ops| > 0 {
      ApplyKeepsInv(cat, r, ops[0]);
      ApplyKeepsComplete(cat, r, ops[0]);
      RunKeepsComplete(cat, Apply(cat, r, ops[0]), ops[1..]);
    }
  }

  /** Loading two overlapping plugins and unloading the first takes a command away
      from the second, which is still loaded. */
  lemma OverlapLosesCommand(cat: Catalogue, p: string, q: string, n: string)
    requires p in cat && q in cat && p != q && n in NameSet(cat[p]) && n in NameSet(cat[q])
    ensures !Complete(cat, Run(cat, EMPTY, [Load(p, true), Load(q, true), Unload(p)]))
  {
    var ops := [Load(p, true), Load(q, true), Unload(p)];
    assert ops[1..] == [Load(q, true), Unload(p)] && ops[2..] == [Unload(p)] && ops[3..] == [];
    assert ops[1..][1..] == ops[2..] && ops[2..][1..] == ops[3..];
    var r1 := Apply(cat, EMPTY, ops[0]);
    ApplyKeepsInv(cat, EMPTY, ops[0]);
    var r2 := Apply(cat, r1, ops[1]);
    ApplyKeepsInv(cat, r1, ops[1]);
    var r3 := Apply(cat, r2, ops[2]);
    assert Run(cat, EMPTY, ops) == Run(cat, r1, ops[1..]) == Run(cat, r2, ops[2..]) == Run(cat, r3, ops[3..]) == r3;
    assert OpenCount(r2.open, p) == 1;
    assert q in r3.plugins && n !in r3.commands;
  }

  /** It does not matter whose the entry is: unloading the second takes the command away from
      the first, whose callback it was. */
  lemma OverlapLosesOwnCommand(cat: Catalogue, p: string, q: string, n: string)
    requires p in cat && q in cat && p != q && n in NameSet(cat[p]) && n in NameSet(cat[q])
    ensures var r := Run(cat, EMPTY, [Load(p, true), Load(q, true)]);
            n in r.commands && r.commands[n].plugin == p
    ensures var r := Run(cat, EMPTY, [Load(p, true), Load(q, true), Unload(q)]);
            p in r.plugins && n !in r.commands
  {
    var ops := [Load(p, true), Load(q, true), Unload(q)];
    assert ops[1..] == [Load(q, true), Unload(q)] && ops[2..] == [Unload(q)] && ops[3..] == [];
    assert ops[1..][1..] == ops[2..] && ops[2..][1..] == ops[3..];
    var two := [Load(p, true), Load(q, true)];
    assert two[1..] == [Load(q, true)] && two[1..][1..] == [];
    var r1 := Apply(cat, EMPTY, ops[0]);
    ApplyKeepsInv(cat, EMPTY, ops[0]);
    var r2 := Apply(cat, r1, ops[1]);
    ApplyKeepsInv(cat, r1, ops[1]);
    var r3 := Apply(cat, r2, ops[2]);
    assert Run(cat, EMPTY, two) == Run(cat, r1, two[1..]) == r2;
    assert Run(cat, EMPTY, ops) == Run(cat, r1, ops[1..]) == Run(cat, r2, ops[2..]) == Run(cat, r3, ops[3..]) == r3;
    InsertEffect(EMPTY.commands, p, cat[p], |cat[p]|);
    InsertEffect(r1.commands, q, cat[q], |cat[q]|);
    assert OpenCount(r2.open, q) == 1;
  }

  /** What a load does in a reachable registry: nothing if the object does not open, and
      otherwise the plugin is loaded, the names of its table are there, those that were there
      before unchanged and the new ones its own. */
  lemma LoadEffect(cat: Catalogue, r: Registry, p: string, opens: bool)
    requires Inv(cat, r)
    ensures p !in cat || !opens ==> AfterLoad(cat, r, p, opens) == r
    ensures p in cat && opens ==>
              var r' := AfterLoad(cat, r, p, opens);
              && r'.plugins == r.plugins + {p}
              && (forall n :: n in r'.commands <==> n in r.commands || n in NameSet(cat[p]))
              && (forall n :: n in r.commands ==> r'.commands[n] == r.commands[n])
              && (forall n :: n in r'.commands && n !in r.commands ==> r'.commands[n].plugin == p)
  {
    if p in cat && opens {
      InsertEffect(r.commands, p, cat[p], |cat[p]|);
      assert cat[p][..|cat[p]|] == cat[p];
    }
  }

  /** What an unload does: nothing if the plugin is not loaded, and otherwise it is gone, with
      all the names of its table, whoever had them. */
  lemma UnloadEffect(cat: Catalogue, r: Registry, p: string)
    requires Inv(cat, r)
    ensures p !in r.plugins ==> AfterUnload(cat, r, p) == r
    ensures p in r.plugins ==>
              var r' := AfterUnload(cat, r, p);
              && p in cat && r'.plugins == r.plugins - {p}
              && (forall n :: n in r'.commands <==> n in r.commands && n !in NameSet(cat[p]))
              && (forall n :: n in r'.commands ==> r'.commands[n] == r.commands[n])
  {
  }

  ghost predicate Offered(cat: Catalogue, r: Registry, n: string) {
    exists p :: p in r.plugins && p in cat && n in NameSet(cat[p])
  }

  /** The commands are the union of the tables of the loaded plugins. */
  ghost predicate IsUnion(cat: Catalogue, r: Registry) {
    forall n :: n in r.commands <==> Offered(cat, r, n)
  }

  lemma UnionIffComplete(cat: Catalogue, r: Registry)
    requires NoDangling(cat, r)
    ensures IsUnion(cat, r) <==> Complete(cat, r)
  {
    forall n | n in r.commands ensures Offered(cat, r, n) {
      assert IsEntry(cat, n, r.commands[n]);
    }
    if IsUnion(cat, r) {
      forall p, n | p in r.plugins && p in cat && n in NameSet(cat[p]) ensures n in r.commands.Keys {
        assert Offered(cat, r, n);
      }
    }
  }

  /** The command map is, in every reachable state, the union of the tables of the
      loaded plugins, if and only if no two plugins overlap. */
  lemma UnionIffDisjoint(cat: Catalogue)
    ensures (forall ops :: IsUnion(cat, Run(cat, EMPTY, ops))) <==> Disjoint(cat)
  {
    hide IsUnion, Complete, NoDangling, Run;
    forall ops ensures IsUnion(cat, Run(cat, EMPTY, ops)) <==> Complete(cat, Run(cat, EMPTY, ops)) {
      EmptyIsFine(cat);
      RunKeepsInv(cat, EMPTY, ops);
      UnionIffComplete(cat, Run(cat, EMPTY, ops));
    }
    if Disjoint(cat) {
      forall ops ensures IsUnion(cat, Run(cat, EMPTY, ops)) {
        EmptyIsFine(cat);
        RunKeepsComplete(cat, EMPTY, ops);
      }
    } else {
      var p, q, n :| p in cat && q in cat && n in NameSet(cat[p]) && n in NameSet(cat[q]) && p != q;
      OverlapLosesCommand(cat, p, q, n);
    }
  }

  lemma EmptyIsFine(cat: Catalogue)
    ensures Inv(cat, EMPTY) && Complete(cat, EMPTY)
  {
  }

  // --------------------------------------------------------------------- the class

  class PluginHost {
    const cat: Catalogue
    var commands: map<string, Callback>
    var plugins: set<string>
    var open: map<string, nat>

    constructor (cat: Catalogue)
      ensures this.cat == cat && View() == EMPTY && Valid()
    {
      this.cat := cat;
      commands, plugins, open := map[], {}, map[];
    }

    function View(): Registry
      reads this
    {
      Registry(commands, plugins, open)
    }

    ghost predicate Valid()
      reads this
    {
      Inv(cat, View())
    }

    /** user_command_map.insert over the table of a plugin. */
    method AddPluginCommands(p: string, names: seq<string>)
      modifies this`commands
      ensures commands == Insert(old(commands), p, names, |names|)
    {
      for i := 0 to |names|
        invariant commands == Insert(old(commands), p, names, i)
      {
        if names[i] !in commands {
          commands := commands[names[i] := Callback(p, i)];
        }
      }
    }

    method RemovePluginCommands(names: array<string>)
      modifies this`commands
      ensures commands == old(commands) - NameSet(names[..])
    {
      ghost var all := names[..];
      for i := 0 to names.Length
        invariant commands == old(commands) - NameSet(all[..i])
      {
        assert NameSet(all[..i + 1]) == NameSet(all[..i]) + {all[i]} by {
          NameSetNext(all, i);
        }
        commands := commands - {names[i]};
      }
      assert all[..names.Length] == all;
    }

    /** DeleteCallbackImpl: collect the names of the table, then remove them. */
    method DeletePluginCommands(names: seq<string>)
      modifies this`commands
      ensures commands == old(commands) - NameSet(names)
    {
      var svMap := new string[|names|];
      for i := 0 to |names|
        invariant forall j :: 0 <= j < i ==> svMap[j] == names[j]
        invariant commands == old(commands)
      {
        svMap[i] := names[i];
      }
      assert svMap[..] == names;
      RemovePluginCommands(svMap);
    }

    method LoadPlugin(p: string, opens: bool) returns (ok: bool)
      requires Valid()
      modifies this
      ensures Valid() && View() == AfterLoad(cat, old(View()), p, opens)
      ensures ok <==> p in cat && opens
    {
      ApplyKeepsInv(cat, View(), Load(p, opens));
      if p !in cat || !opens {
        return false;
      }
      open := open[p := OpenCount(open, p) + 1];
      AddPluginCommands(p, cat[p]);
      if p in plugins {
        // the insertion finds the key taken, and the temporary closes its handle
        open := Close(open, p);
      } else {
        plugins := plugins + {p};
      }
      assert plugins == old(plugins) + {p};
      return true;
    }

    method UnloadPlugin(p: string) returns (ok: bool)
      requires Valid()
      modifies this
      ensures Valid() && View() == AfterUnload(cat, old(View()), p)
      ensures ok <==> p in old(plugins)
    {
      ApplyKeepsInv(cat, View(), Unload(p));
      if p in plugins {
        DeletePluginCommands(cat[p]);
        plugins := plugins - {p};
        open := Close(open, p);
        return true;
      } else {
        return false;
      }
    }
  }
}
