/** Where a new plugin sits in the plugin tree: `_plugin_name_to_plugin_fullpath`,
    with the chain of plugins being loaded passed in explicitly. */
module Resolver {
  import opened Wrappers
  import opened PluginModel

  /** `managers.index(m)`: the first position of `m`, or None where Python raises. */
  function IndexOf(managers: seq<Manager>, m: Manager): (r: Option<nat>)
    ensures r.None? <==> m !in managers
    ensures r.Some? ==> r.value < |managers| && managers[r.value] == m && m !in managers[..r.value]
  {
    if managers == [] then None
    else if managers[0] == m then Some(0)
    else
      var r := IndexOf(managers[1..], m);
      if r.Some? then
        assert managers[..r.value + 1] == [managers[0]] + managers[1..][..r.value];
        Some(r.value + 1)
      else
        None
  }

  /** Both managers are in the manager list, so comparing their positions raises nothing. */
  predicate BothRegistered(p: Plugin, m: Manager, managers: seq<Manager>) {
    p.manager in managers && m in managers
  }

  /** `p` was loaded by a manager registered strictly before `m`. */
  predicate Outranks(p: Plugin, m: Manager, managers: seq<Manager>) {
    var i, j := IndexOf(managers, p.manager), IndexOf(managers, m);
    i.Some? && j.Some? && i.value < j.value
  }

  /** The names of the plugins in a load chain, outermost first. */
  function ChainNames(chain: seq<Plugin>): (r: seq<string>)
    ensures |r| == |chain|
    ensures forall i | 0 <= i < |chain| :: r[i] == chain[i].name
  {
    seq(|chain|, i requires 0 <= i < |chain| => chain[i].name)
  }

  /** The loop over `reversed(parents)` for a plugin loaded by manager `m`: the
      innermost chain plugin whose manager comes earlier gives the parent path. */
  function NestUnder(name: string, m: Manager, chain: seq<Plugin>, managers: seq<Manager>)
    : (r: Result<seq<string>, Error>)
    ensures r.Ok? ==> |r.value| > 0 && r.value[|r.value| - 1] == name
    ensures r.Err? ==> r.error == ManagerNotRegistered
    decreases |chain|
  {
    if chain == [] then Ok([name])
    else
      var pre := chain[|chain| - 1];
      var i, j := IndexOf(managers, pre.manager), IndexOf(managers, m);
      if i.None? || j.None? then Err(ManagerNotRegistered)
      else if i.value < j.value then Ok(pre.fullpath + [name])
      else NestUnder(name, m, chain[..|chain| - 1], managers)
  }

  /** `_plugin_name_to_plugin_fullpath`: without a manager the plugin nests under
      the whole chain; with one, under its innermost outranking chain plugin. */
  function FullPath(name: string, manager: Option<Manager>, chain: seq<Plugin>, managers: seq<Manager>)
    : (r: Result<seq<string>, Error>)
    ensures r.Ok? ==> |r.value| > 0 && r.value[|r.value| - 1] == name
    ensures manager.None? ==> r.Ok? && |r.value| == |chain| + 1
    ensures manager.None? ==> forall i | 0 <= i < |chain| :: r.value[i] == chain[i].name
  {
    match manager
    case None => Ok(ChainNames(chain) + [name])
    case Some(m) => NestUnder(name, m, chain, managers)
  }

  /** No plugin of the chain outranks manager `m`. */
  predicate NoneOutranks(chain: seq<Plugin>, m: Manager, managers: seq<Manager>) {
    forall k | 0 <= k < |chain| :: !Outranks(chain[k], m, managers)
  }

  /** `chain[k]` outranks `m` and is the innermost chain plugin that does. */
  predicate InnermostOutranking(chain: seq<Plugin>, k: int, m: Manager, managers: seq<Manager>) {
    && 0 <= k < |chain|
    && Outranks(chain[k], m, managers)
    && forall k' | k < k' < |chain| :: !Outranks(chain[k'], m, managers)
  }

  /** Putting a plugin that does not outrank `m` inside a chain changes neither
      which chain plugin outranks `m` innermost nor whether none does. */
  lemma ExtendChain(chain: seq<Plugin>, m: Manager, managers: seq<Manager>)
    requires chain != [] && !Outranks(chain[|chain| - 1], m, managers)
    ensures NoneOutranks(chain[..|chain| - 1], m, managers) ==> NoneOutranks(chain, m, managers)
    ensures forall k | InnermostOutranking(chain[..|chain| - 1], k, m, managers) ::
      InnermostOutranking(chain, k, m, managers) && chain[k] == chain[..|chain| - 1][k]
  {
  }

  /** A successful scan either found no outranking chain plugin and made the new
      plugin top-level, or nested it under the innermost outranking one. */
  lemma {:induction false} NestUnderResult(name: string, m: Manager, chain: seq<Plugin>, managers: seq<Manager>)
    requires NestUnder(name, m, chain, managers).Ok?
    ensures var path := NestUnder(name, m, chain, managers).value;
      || (path == [name] && NoneOutranks(chain, m, managers))
      || exists k | InnermostOutranking(chain, k, m, managers) :: path == chain[k].fullpath + [name]
    decreases |chain|
  {
    if chain != [] {
      var n := |chain| - 1;
      if Outranks(chain[n], m, managers) {
        assert InnermostOutranking(chain, n, m, managers);
      } else {
        var rest := chain[..n];
        NestUnderResult(name, m, rest, managers);
        ExtendChain(chain, m, managers);
      }
    }
  }

  /** The scan raises exactly when, going inward to outward, it meets a chain
      plugin whose manager (or the new plugin's) is not in the manager list
      before it meets an outranking one. */
  lemma {:induction false} NestUnderFails(name: string, m: Manager, chain: seq<Plugin>, managers: seq<Manager>)
    ensures NestUnder(name, m, chain, managers).Err? <==>
      exists k | 0 <= k < |chain| ::
        && !BothRegistered(chain[k], m, managers)
        && forall k' | k < k' < |chain| :: !Outranks(chain[k'], m, managers)
    decreases |chain|
  {
    if chain != [] {
      var n := |chain| - 1;
      var pre := chain[n];
      var rest := chain[..n];
      if !BothRegistered(pre, m, managers) {
        assert !BothRegistered(chain[n], m, managers);
      } else if Outranks(pre, m, managers) {
        forall k | 0 <= k < |chain| && !BothRegistered(chain[k], m, managers)
          ensures exists k' | k < k' < |chain| :: Outranks(chain[k'], m, managers)
        {
          assert k < n && Outranks(chain[n], m, managers);
        }
      } else {
        NestUnderFails(name, m, rest, managers);
        if NestUnder(name, m, rest, managers).Err? {
          var k :| 0 <= k < |rest| && !BothRegistered(rest[k], m, managers) && forall k' | k < k' < |rest| :: !Outranks(rest[k'], m, managers);
          assert chain[k] == rest[k];
          forall k' | k < k' < |chain| ensures !Outranks(chain[k'], m, managers) {
            if k' < n { assert chain[k'] == rest[k']; }
          }
        } else {
          forall k | 0 <= k < |chain| && !BothRegistered(chain[k], m, managers)
            ensures exists k' | k < k' < |chain| :: Outranks(chain[k'], m, managers)
          {
            assert k < n;
            assert chain[k] == rest[k];
            var k' :| k < k' < |rest| && Outranks(rest[k'], m, managers);
            assert chain[k'] == rest[k'];
          }
        }
      }
    }
  }

  /** Appending a manager keeps every earlier manager's precedence and gives a
      new manager the last position. */
  lemma {:induction false} IndexOfAppend(managers: seq<Manager>, added: Manager, m: Manager)
    ensures m in managers ==> IndexOf(managers + [added], m) == IndexOf(managers, m)
    ensures m !in managers && m == added ==> IndexOf(managers + [added], m) == Some(|managers|)
  {
    if managers != [] && managers[0] != m {
      assert (managers + [added])[1..] == managers[1..] + [added];
      IndexOfAppend(managers[1..], added, m);
    }
  }

  /** The two managers of the cross-manager scenario: with `first` registered
      before `second`, a plugin loaded through `second` while a plugin of `first`
      is loading nests under it, and in the opposite roles it becomes top-level. */
  lemma CrossManagerPrecedence(first: Manager, second: Manager, outer: Plugin, name: string)
    requires first != second
    ensures outer.manager == first ==>
      FullPath(name, Some(second), [outer], [first, second]) == Ok(outer.fullpath + [name])
    ensures outer.manager == second ==>
      FullPath(name, Some(first), [outer], [first, second]) == Ok([name])
  {
    assert IndexOf([first, second], first) == Some(0);
    assert [first, second][1..] == [second];
    assert IndexOf([first, second], second) == Some(1);
    assert [outer][..0] == [];
    assert NestUnder(name, first, [], [first, second]) == Ok([name]);
  }
}
