/**
 * The plugin registry of the game front-end (src/plugins/PluginsManager.ts): an insertion-ordered
 * map from plugin name to plugin, a two-pass start-up (every `init`, then every
 * `onPluginsManagerInit`), removal with a teardown hook, and role accessors that fail when their
 * plugin is missing.
 *
 * The map is a sequence of entries with distinct names, in insertion order. Plugins are values;
 * their hooks are recorded, in call order, in the manager's hook-call trace instead of being run.
 */
module PluginsManager {
  import opened Wrappers

  /** The names a plugin may have. */
  type PluginName = s: string | s in {"UI", "Renderer", "Preload", "Ticker", "DevTools"} witness "UI"

  /** A plugin: its name, an identity, and which of the optional hooks it defines. */
  datatype Plugin = Plugin(
    name: PluginName,
    id: nat,
    hasInit: bool,
    hasManagerInit: bool,
    hasRemoveHook: bool)

  /** The optional hooks: `init`, `onPluginsManagerInit` and `onRemoveFromPluginsManager`. */
  datatype Hook = InitHook | ManagerInitHook | RemoveHook

  predicate Has(p: Plugin, h: Hook) {
    match h
    case InitHook => p.hasInit
    case ManagerInitHook => p.hasManagerInit
    case RemoveHook => p.hasRemoveHook
  }

  /**
   * One hook call, made on the plugin stored under `name`. An `onPluginsManagerInit` call is
   * always passed the manager whose trace records it.
   */
  datatype HookCall = Called(hook: Hook, name: string)

  /** One entry of the registry map. */
  datatype Entry = Entry(name: string, plugin: Plugin)

  function Names(es: seq<Entry>): (r: seq<string>)
    ensures |r| == |es| && forall i :: 0 <= i < |es| ==> r[i] == es[i].name
  {
    seq(|es|, i requires 0 <= i < |es| => es[i].name)
  }

  /** The registry's values in map order (what `forEach` visits). */
  function Values(es: seq<Entry>): (r: seq<Plugin>)
    ensures |r| == |es| && forall i :: 0 <= i < |es| ==> r[i] == es[i].plugin
  {
    seq(|es|, i requires 0 <= i < |es| => es[i].plugin)
  }

  predicate Distinct(ns: seq<string>) {
    forall i, j :: 0 <= i < j < |ns| ==> ns[i] != ns[j]
  }

  /** `map.get(name)`. */
  function Lookup(es: seq<Entry>, name: string): (r: Option<Plugin>)
    ensures r.Some? <==> name in Names(es)
    ensures r.Some? ==> Entry(name, r.value) in es
  {
    if es == [] then None
    else if es[0].name == name then Some(es[0].plugin)
    else
      assert Names(es) == [es[0].name] + Names(es[1..]);
      Lookup(es[1..], name)
  }

  /** `map.set(name, p)`: an existing key keeps its place and takes the new value; a new key goes last. */
  function Put(es: seq<Entry>, name: string, p: Plugin): (r: seq<Entry>)
    ensures Entry(name, p) in r
  {
    if es == [] then [Entry(name, p)]
    else if es[0].name == name then [Entry(name, p)] + es[1..]
    else [es[0]] + Put(es[1..], name, p)
  }

  /** `map.delete(name)`. */
  function Delete(es: seq<Entry>, name: string): (r: seq<Entry>)
    ensures name !in Names(r)
    ensures |r| <= |es|
  {
    if es == [] then []
    else if es[0].name == name then Delete(es[1..], name)
    else
      var rest := Delete(es[1..], name);
      assert Names([es[0]] + rest) == [es[0].name] + Names(rest);
      [es[0]] + rest
  }

  /** The plugins of `ps` set one after the other, as `addList` does. */
  function PutAll(es: seq<Entry>, ps: seq<Plugin>): (r: seq<Entry>)
    ensures ps != [] ==> Entry(ps[|ps| - 1].name, ps[|ps| - 1]) in r
  {
    if ps == [] then es
    else
      var p := ps[|ps| - 1];
      Put(PutAll(es, ps[..|ps| - 1]), p.name, p)
  }

  /** The last plugin of `ps` named `name`, if any. */
  function LastNamed(ps: seq<Plugin>, name: string): Option<Plugin> {
    if ps == [] then None
    else if ps[|ps| - 1].name == name then Some(ps[|ps| - 1])
    else LastNamed(ps[..|ps| - 1], name)
  }

  /** One pass over a snapshot of the registry: hook `h` of every plugin that defines it, in map order. */
  function Pass(es: seq<Entry>, h: Hook): (r: seq<HookCall>)
    ensures |r| <= |es|
  {
    if es == [] then []
    else (if Has(es[0].plugin, h) then [Called(h, es[0].name)] else []) + Pass(es[1..], h)
  }

  /** The message a role accessor throws when its plugin is missing. */
  function NotInitialized(role: PluginName): string {
    role + " plugin is not initialized"
  }

  /** Setting a key changes what that key maps to and nothing else. */
  lemma {:induction false} PutLookup(es: seq<Entry>, name: string, p: Plugin, other: string)
    ensures Lookup(Put(es, name, p), other) == if other == name then Some(p) else Lookup(es, other)
  {
    if es != [] && es[0].name != name {
      PutLookup(es[1..], name, p, other);
    }
  }

  /**
   * Setting a key present already keeps every name where it was (so the entry count is
   * unchanged); setting a new key appends it at the end.
   */
  lemma {:induction false} PutNames(es: seq<Entry>, name: string, p: Plugin)
    ensures Names(Put(es, name, p)) == if name in Names(es) then Names(es) else Names(es) + [name]
  {
    if es != [] {
      assert Names(es) == [es[0].name] + Names(es[1..]);
      if es[0].name != name {
        PutNames(es[1..], name, p);
        assert Names(Put(es, name, p)) == [es[0].name] + Names(Put(es[1..], name, p));
      } else {
        assert Names(Put(es, name, p)) == [name] + Names(es[1..]);
      }
    }
  }

  lemma PutKeepsDistinct(es: seq<Entry>, name: string, p: Plugin)
    requires Distinct(Names(es))
    ensures Distinct(Names(Put(es, name, p)))
  {
    PutNames(es, name, p);
  }

  /** Deleting a key removes exactly that key. */
  lemma {:induction false} DeleteLookup(es: seq<Entry>, name: string, other: string)
    ensures Lookup(Delete(es, name), other) == if other == name then None else Lookup(es, other)
  {
    if es != [] {
      DeleteLookup(es[1..], name, other);
    }
  }

  /** Deleting a key that is not there changes nothing. */
  lemma {:induction false} DeleteAbsent(es: seq<Entry>, name: string)
    requires name !in Names(es)
    ensures Delete(es, name) == es
  {
    if es != [] {
      assert Names(es) == [es[0].name] + Names(es[1..]);
      DeleteAbsent(es[1..], name);
    }
  }

  /** Names stay distinct when an entry is put in front of entries that do not carry its name. */
  lemma ConsDistinct(e: Entry, rest: seq<Entry>)
    requires Distinct(Names(rest)) && e.name !in Names(rest)
    ensures Distinct(Names([e] + rest))
  {
    assert Names([e] + rest) == [e.name] + Names(rest);
  }

  /** Deleting keeps exactly the entries under the other names. */
  lemma {:induction false} DeleteKeepsOthers(es: seq<Entry>, name: string)
    ensures forall e :: e in Delete(es, name) <==> e in es && e.name != name
  {
    if es != [] {
      DeleteKeepsOthers(es[1..], name);
      assert es == [es[0]] + es[1..];
    }
  }

  /** Deleting keeps names distinct, and removes one entry when the name was there. */
  lemma {:induction false} DeleteFromDistinct(es: seq<Entry>, name: string)
    requires Distinct(Names(es))
    ensures Distinct(Names(Delete(es, name)))
    ensures |Delete(es, name)| == if name in Names(es) then |es| - 1 else |es|
  {
    if es != [] {
      assert Names(es) == [es[0].name] + Names(es[1..]);
      DeleteFromDistinct(es[1..], name);
      if es[0].name != name {
        var rest := Delete(es[1..], name);
        DeleteKeepsOthers(es[1..], name);
        forall e | e in rest ensures e.name != es[0].name {
          assert e in es[1..];
        }
        ConsDistinct(es[0], rest);
      } else {
        DeleteAbsent(es[1..], name);
      }
    }
  }

  /** Setting a new key and then deleting it gives back the original map. */
  lemma {:induction false} PutThenDelete(es: seq<Entry>, name: string, p: Plugin)
    requires name !in Names(es)
    ensures Delete(Put(es, name, p), name) == es
  {
    if es != [] {
      assert Names(es) == [es[0].name] + Names(es[1..]);
      PutThenDelete(es[1..], name, p);
    }
  }

  /** `addList` as repeated `add`: every name maps to the last plugin of the list with that name, others are untouched. */
  lemma {:induction false} PutAllLookup(es: seq<Entry>, ps: seq<Plugin>, name: string)
    ensures Lookup(PutAll(es, ps), name) == match LastNamed(ps, name)
      case Some(p) => Some(p)
      case None => Lookup(es, name)
  {
    if ps != [] {
      var last := ps[|ps| - 1];
      PutAllLookup(es, ps[..|ps| - 1], name);
      PutLookup(PutAll(es, ps[..|ps| - 1]), last.name, last, name);
    }
  }

  lemma {:induction false} PutAllKeepsDistinct(es: seq<Entry>, ps: seq<Plugin>)
    requires Distinct(Names(es))
    ensures Distinct(Names(PutAll(es, ps)))
  {
    if ps != [] {
      PutAllKeepsDistinct(es, ps[..|ps| - 1]);
      PutKeepsDistinct(PutAll(es, ps[..|ps| - 1]), ps[|ps| - 1].name, ps[|ps| - 1]);
    }
  }

  /** A pass over a registry is the pass over its front followed by the pass over the rest. */
  lemma {:induction false} PassSplit(es: seq<Entry>, h: Hook, i: nat)
    requires i <= |es|
    ensures Pass(es, h) == Pass(es[..i], h) + Pass(es[i..], h)
  {
    if i > 0 {
      PassSplit(es[1..], h, i - 1);
      assert es[1..][..i - 1] == es[1..i];
      assert es[1..][i - 1..] == es[i..];
      assert es[..i][1..] == es[1..i];
    }
  }

  /** A pass only calls hook `h`, and only on plugins that define it: the others are skipped. */
  lemma {:induction false} PassOnlyDefined(es: seq<Entry>, h: Hook)
    ensures forall c :: c in Pass(es, h) ==> c.hook == h && exists e :: e in es && e.name == c.name && Has(e.plugin, h)
  {
    if es != [] {
      PassOnlyDefined(es[1..], h);
    }
  }

  /**
   * A pass calls the hook of the `i`-th entry, when it has one, at position `|Pass(es[..i], h)|`;
   * the calls of the entries from `j > i` on come strictly later: the pass goes in insertion
   * order. With `j == |es|` this says the `i`-th entry's hook is called, the last entry's included.
   */
  lemma PassInOrder(es: seq<Entry>, h: Hook, i: nat, j: nat)
    requires i < j <= |es| && Has(es[i].plugin, h)
    ensures |Pass(es[..i], h)| < |Pass(es[..j], h)| <= |Pass(es, h)|
    ensures Pass(es, h)[|Pass(es[..i], h)|] == Called(h, es[i].name)
  {
    PassSplit(es, h, i);
    PassSplit(es, h, j);
    PassSplit(es[..j], h, i);
    assert es[..j][..i] == es[..i];
    assert Pass(es[i..], h)[0] == Called(h, es[i].name);
    assert |Pass(es[..j][i..], h)| >= 1 by {
      assert es[..j][i..][0] == es[i];
    }
  }

  /** Start-up: every `init` call comes before every `onPluginsManagerInit` call. */
  lemma StartupPhases(es: seq<Entry>)
    ensures var t := Pass(es, InitHook) + Pass(es, ManagerInitHook);
      forall a, b :: 0 <= a < |t| && 0 <= b < |t| && t[a].hook == ManagerInitHook && t[b].hook == InitHook ==> b < a
  {
    PassOnlyDefined(es, InitHook);
    PassOnlyDefined(es, ManagerInitHook);
    var first, second := Pass(es, InitHook), Pass(es, ManagerInitHook);
    assert forall a :: 0 <= a < |first| ==> (first + second)[a] == first[a] && first[a] in first;
    assert forall b :: |first| <= b < |first| + |second| ==>
      (first + second)[b] == second[b - |first|] && second[b - |first|] in second;
  }

  /** What `registeredPlugins` lists is, position by position, what `get` returns for that position's name. */
  lemma {:induction false} RegisteredMatchesGet(es: seq<Entry>, i: nat)
    requires Distinct(Names(es)) && i < |es|
    ensures Lookup(es, Names(es)[i]) == Some(Values(es)[i])
  {
    if i > 0 {
      assert es[0].name != es[i].name by {
        assert Names(es)[0] != Names(es)[i];
      }
      assert Names(es[1..]) == Names(es)[1..];
      RegisteredMatchesGet(es[1..], i - 1);
    }
  }

  /** The registry (`Manager`). */
  class Manager {
    /** The `registry` map, as entries in insertion order. */
    var entries: seq<Entry>
    /** Every hook call made so far, in order. */
    var calls: seq<HookCall>

    predicate Valid()
      reads this
    {
      Distinct(Names(entries))
    }

    constructor ()
      ensures entries == [] && calls == [] && Valid()
    {
      entries := [];
      calls := [];
    }

    /** `add(plugin)`: stores the plugin under its own name and returns it. */
    method Add(p: Plugin) returns (r: Plugin)
      requires Valid()
      modifies this`entries
      ensures entries == Put(old(entries), p.name, p) && Valid()
      ensures r == p
    {
      PutKeepsDistinct(entries, p.name, p);
      entries := Put(entries, p.name, p);
      r := p;
    }

    /** `addList(list)`: adds each plugin in order; the list it returns is always empty. */
    method AddList(ps: seq<Plugin>) returns (r: seq<Plugin>)
      requires Valid()
      modifies this`entries
      ensures entries == PutAll(old(entries), ps) && Valid()
      ensures r == []
    {
      r := [];
      for i := 0 to |ps|
        invariant entries == PutAll(old(entries), ps[..i]) && Valid()
      {
        assert ps[..i + 1][..i] == ps[..i];
        var _ := Add(ps[i]);
      }
      assert ps[..|ps|] == ps;
    }

    /** `get(name)`. */
    function Get(name: string): (r: Option<Plugin>)
      reads this
      ensures r.Some? <==> name in Names(entries)
      ensures r.Some? ==> Entry(name, r.value) in entries
    {
      Lookup(entries, name)
    }

    /** `isInitialized(name)`: whether a plugin is stored under `name`. */
    predicate IsInitialized(name: PluginName)
      reads this
      ensures IsInitialized(name) <==> Get(name).Some?
    {
      name in Names(entries)
    }

    /**
     * `remove(name)`: nothing for an absent name; otherwise the entry is deleted and then the
     * removed plugin's `onRemoveFromPluginsManager` is called, if it has one.
     */
    method Remove(name: string)
      requires Valid()
      modifies this`entries, this`calls
      ensures Valid()
      ensures entries == Delete(old(entries), name)
      ensures calls == old(calls) + match Lookup(old(entries), name)
        case None => []
        case Some(p) => if p.hasRemoveHook then [Called(RemoveHook, name)] else []
    {
      var found := Get(name);
      if found.None? {
        DeleteAbsent(entries, name);
        return;
      }
      DeleteFromDistinct(entries, name);
      entries := Delete(entries, name);
      if found.value.hasRemoveHook {
        calls := calls + [Called(RemoveHook, name)];
      }
    }

    /** One pass (`initPlugins` or `postInitPlugins`) over a snapshot of the registry. */
    method RunPass(h: Hook)
      modifies this`calls
      ensures calls == old(calls) + Pass(entries, h)
    {
      var plugins := entries;
      for i := 0 to |plugins|
        invariant calls == old(calls) + Pass(plugins[..i], h)
      {
        PassSplit(plugins[..i + 1], h, i);
        assert plugins[..i + 1][..i] == plugins[..i];
        assert plugins[..i + 1][i..] == [plugins[i]];
        if Has(plugins[i].plugin, h) {
          calls := calls + [Called(h, plugins[i].name)];
        }
      }
      assert plugins[..|plugins|] == plugins;
    }

    /** `init()`: every `init` in map order, then every `onPluginsManagerInit` in map order. */
    method Init()
      modifies this`calls
      ensures calls == old(calls) + Pass(entries, InitHook) + Pass(entries, ManagerInitHook)
    {
      RunPass(InitHook);
      RunPass(ManagerInitHook);
    }

    /**
     * The role accessors `devTools`, `preload`, `renderer`, `ticker` and `ui`: the plugin stored
     * under the role's own name, or the error "<Name> plugin is not initialized".
     */
    function RolePlugin(role: PluginName): (r: Result<Plugin, string>)
      reads this
      ensures r.Success? <==> IsInitialized(role)
      ensures r.Success? ==> Get(role) == Some(r.value)
      ensures r.Failure? ==> r.error == NotInitialized(role)
    {
      match Get(role)
      case Some(p) => Success(p)
      case None => Failure(NotInitialized(role))
    }

    /** `registeredPlugins`: the stored plugins, in map order. */
    method RegisteredPlugins() returns (r: seq<Plugin>)
      ensures r == Values(entries)
    {
      r := [];
      for i := 0 to |entries|
        invariant r == Values(entries[..i])
      {
        r := r + [entries[i].plugin];
      }
      assert entries[..|entries|] == entries;
    }
  }
}
