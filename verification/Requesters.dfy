/**
 Which protocol threads request frames from a channel. sendSyncRecv holds the mutex of its protocol
 thread, and a channel serves a whole task, so one requester at a time per channel takes one protocol
 thread per task.
 */
module Requesters {
  import opened MapOrder
  import opened TaskCenter
  import opened ProtocolManager

  /** m_vecThread after arranging, creating and starting. */
  function ThreadsOf(st: Store, tasks: map<string, Task>, plugins: Plugins): seq<(string, seq<Info>)> {
    var loads := Loads(Arranged(st, tasks));
    ThreadsIn(loads, plugins, Ascending(RegisteredKeys(loads, plugins)))
  }

  predicate Serves(infos: seq<Info>, x: string) {
    exists i :: 0 <= i < |infos| && x in infos[i].names
  }

  /** Thread j serves a device that the task's channel serves. */
  predicate Requests(st: Store, tasks: map<string, Task>, plugins: Plugins, t: string, j: nat)
    requires t in tasks && j < |ThreadsOf(st, tasks, plugins)|
  {
    exists x :: x in ChannelOf(t, tasks[t]).names && Serves(ThreadsOf(st, tasks, plugins)[j].1, x)
  }

  predicate OneRequester(st: Store, tasks: map<string, Task>, plugins: Plugins, t: string)
    requires t in tasks
  {
    forall j: nat, k: nat | j < |ThreadsOf(st, tasks, plugins)| && k < |ThreadsOf(st, tasks, plugins)| ::
      Requests(st, tasks, plugins, t, j) && Requests(st, tasks, plugins, t, k) ==> j == k
  }

  /** All protocol configurations of the task name one plugin. */
  predicate SamePlugin(st: Store, task: Task) {
    forall a, b | a in Groups(st, task) && b in Groups(st, task) ::
      Groups(st, task)[a].plugName == Groups(st, task)[b].plugName
  }

  /** Every load registers one instance, every entry is listed once, no table brings names. */
  predicate Ready(st: Store, tasks: map<string, Task>, plugins: Plugins) {
    NamesFree(st) && UniqueEntries(tasks) && OneEach(Loads(Arranged(st, tasks)), plugins)
  }

  lemma {:induction false} GroupEntry(st: Store, task: Task, group: string) returns (i: nat)
    requires group in Groups(st, task)
    ensures Joins(st, task, i, group)
    decreases |task.content|
  {
    var k := |task.content| - 1;
    var less := task.(content := task.content[..k]);
    if group in Groups(st, less) {
      i := GroupEntry(st, less, group);
      assert less.content[i] == task.content[i];
    } else {
      i := k;
    }
  }

  /** A group's entry is served by the thread of its task and plugin. */
  lemma {:induction false} EntryServed(st: Store, tasks: map<string, Task>, plugins: Plugins, t: string, i: nat)
    returns (j: nat)
    requires Ready(st, tasks, plugins) && t in tasks && i < |tasks[t].content| && HasCfg(st, tasks[t], i)
    ensures GroupKey(tasks[t], i) in Groups(st, tasks[t])
    ensures var threads := ThreadsOf(st, tasks, plugins);
            && j < |threads| && Serves(threads[j].1, tasks[t].content[i].name)
            && threads[j].0 == t + Groups(st, tasks[t])[GroupKey(tasks[t], i)].plugName
  {
    hide NamesFree, UniqueEntries, HasCfg, GroupKey, Groups, Arranged, Loads, Ascending, RegisteredKeys, Made, Configs;
    var loads, x := Loads(Arranged(st, tasks)), tasks[t].content[i].name;
    var g := NamedByOneLoad(st, tasks, t, i);
    var key := Key(loads[g]);
    var keys := RegisteredKeys(loads, plugins);
    KeyRegistered(loads, plugins, g);
    AscendingWalk(keys);
    j :| 0 <= j < |Ascending(keys)| && Ascending(keys)[j] == key;
    var n := IndexOfLoad(loads, g);
    OneEachRight(loads, plugins, key);
    var infos := InfosOf(KeyPairs(Made(loads, plugins, key), Configs(loads, key)));
    assert infos[n].names == loads[g].cfg.names;
    assert Serves(infos, x);
  }

  /** And by no other. */
  lemma {:induction false} ServedByItsThread(st: Store, tasks: map<string, Task>, plugins: Plugins, t: string, i: nat,
                                             j: nat)
    requires Ready(st, tasks, plugins) && t in tasks && i < |tasks[t].content| && HasCfg(st, tasks[t], i)
    requires j < |ThreadsOf(st, tasks, plugins)|
    requires Serves(ThreadsOf(st, tasks, plugins)[j].1, tasks[t].content[i].name)
    ensures GroupKey(tasks[t], i) in Groups(st, tasks[t])
    ensures ThreadsOf(st, tasks, plugins)[j].0 == t + Groups(st, tasks[t])[GroupKey(tasks[t], i)].plugName
  {
    hide NamesFree, UniqueEntries, HasCfg, GroupKey, Groups, Arranged, Loads, Ascending, RegisteredKeys, Made, Configs;
    var loads, x := Loads(Arranged(st, tasks)), tasks[t].content[i].name;
    var g := NamedByOneLoad(st, tasks, t, i);
    var key := ThreadsOf(st, tasks, plugins)[j].0;
    var infos := InfosOf(KeyPairs(Made(loads, plugins, key), Configs(loads, key)));
    var n :| 0 <= n < |infos| && x in infos[n].names;
    var h := Indices(loads, key)[n];
    assert loads[h].cfg == Configs(loads, key)[n] && Key(loads[h]) == key;
    assert x in loads[h].cfg.names;
  }

  /** What no plugin serves has no table. */
  lemma {:induction false} ServedHasCfg(st: Store, tasks: map<string, Task>, plugins: Plugins, t: string, i: nat,
                                        j: nat)
    requires Ready(st, tasks, plugins) && t in tasks && i < |tasks[t].content| && j < |ThreadsOf(st, tasks, plugins)|
    requires Serves(ThreadsOf(st, tasks, plugins)[j].1, tasks[t].content[i].name)
    ensures HasCfg(st, tasks[t], i)
  {
    hide UniqueEntries, HasCfg, Groups, Arranged, Ascending, RegisteredKeys, Made, Configs, OneEach, LoadsIn;
    var cfgs := Arranged(st, tasks);
    var loads, x := Loads(cfgs), tasks[t].content[i].name;
    var key := ThreadsOf(st, tasks, plugins)[j].0;
    var infos := InfosOf(KeyPairs(Made(loads, plugins, key), Configs(loads, key)));
    var n :| 0 <= n < |infos| && x in infos[n].names;
    var h := Indices(loads, key)[n];
    assert x in loads[h].cfg.names;
    AscendingWalk(cfgs.Keys);
    LoadsFrom(cfgs, Ascending(cfgs.Keys));
    assert loads[h].task in Ascending(cfgs.Keys);
    assert Names(cfgs, loads[h].task, loads[h].index, x);
    var group, e := ArrangedJoins(st, tasks, loads[h].task, loads[h].index, x);
    ListedOnce(tasks, t, i, loads[h].task, e);
  }

  lemma {:induction false} ArrangedJoins(st: Store, tasks: map<string, Task>, t: string, j: nat, x: string)
    returns (group: string, i: nat)
    requires NamesFree(st) && Names(Arranged(st, tasks), t, j, x)
    ensures t in tasks && Joins(st, tasks[t], i, group) && tasks[t].content[i].name == x
  {
    hide Groups;
    var m := Groups(st, tasks[t]);
    AscendingWalk(m.Keys);
    group := Ascending(m.Keys)[j];
    assert group in m.Keys;
    i := NamedByGroup(st, tasks[t], group, x);
  }

  lemma ThreadKeysDistinct(st: Store, tasks: map<string, Task>, plugins: Plugins, j: nat, k: nat)
    requires j < |ThreadsOf(st, tasks, plugins)| && k < |ThreadsOf(st, tasks, plugins)|
    requires ThreadsOf(st, tasks, plugins)[j].0 == ThreadsOf(st, tasks, plugins)[k].0
    ensures j == k
  {
    hide Made, Configs, RegisteredKeys, Loads, Arranged;
    AscendingWalk(RegisteredKeys(Loads(Arranged(st, tasks)), plugins));
  }

  lemma SamePrefix(t: string, a: string, b: string)
    requires t + a == t + b
    ensures a == b
  {
    assert (t + a)[|t|..] == a && (t + b)[|t|..] == b;
  }

  /** A task's channel has one requesting thread exactly when the task's configurations name one plugin. */
  lemma {:induction false} OneRequesterIff(st: Store, tasks: map<string, Task>, plugins: Plugins, t: string)
    requires Ready(st, tasks, plugins) && t in tasks
    ensures OneRequester(st, tasks, plugins, t) <==> SamePlugin(st, tasks[t])
  {
    hide Ready, ThreadsOf, Groups, HasCfg, GroupKey, Serves;
    if SamePlugin(st, tasks[t]) {
      forall j: nat, k: nat | j < |ThreadsOf(st, tasks, plugins)| && k < |ThreadsOf(st, tasks, plugins)|
                              && Requests(st, tasks, plugins, t, j) && Requests(st, tasks, plugins, t, k)
        ensures j == k
      {
        var a := RequestGroup(st, tasks, plugins, t, j);
        var b := RequestGroup(st, tasks, plugins, t, k);
        ThreadKeysDistinct(st, tasks, plugins, j, k);
      }
    }
    if OneRequester(st, tasks, plugins, t) {
      forall a, b | a in Groups(st, tasks[t]) && b in Groups(st, tasks[t])
        ensures Groups(st, tasks[t])[a].plugName == Groups(st, tasks[t])[b].plugName
      {
        var j := GroupRequests(st, tasks, plugins, t, a);
        var k := GroupRequests(st, tasks, plugins, t, b);
        assert j == k;
        SamePrefix(t, Groups(st, tasks[t])[a].plugName, Groups(st, tasks[t])[b].plugName);
      }
    }
  }

  lemma {:induction false} RequestGroup(st: Store, tasks: map<string, Task>, plugins: Plugins, t: string, j: nat)
    returns (group: string)
    requires Ready(st, tasks, plugins) && t in tasks && j < |ThreadsOf(st, tasks, plugins)|
    requires Requests(st, tasks, plugins, t, j)
    ensures group in Groups(st, tasks[t])
    ensures ThreadsOf(st, tasks, plugins)[j].0 == t + Groups(st, tasks[t])[group].plugName
  {
    hide Ready, ThreadsOf, Groups, HasCfg, GroupKey, Serves;
    var x :| x in ChannelOf(t, tasks[t]).names && Serves(ThreadsOf(st, tasks, plugins)[j].1, x);
    var i :| 0 <= i < |tasks[t].content| && tasks[t].content[i].name == x;
    ServedHasCfg(st, tasks, plugins, t, i, j);
    ServedByItsThread(st, tasks, plugins, t, i, j);
    group := GroupKey(tasks[t], i);
  }

  lemma {:induction false} GroupRequests(st: Store, tasks: map<string, Task>, plugins: Plugins, t: string,
                                         group: string)
    returns (j: nat)
    requires Ready(st, tasks, plugins) && t in tasks && group in Groups(st, tasks[t])
    ensures j < |ThreadsOf(st, tasks, plugins)| && Requests(st, tasks, plugins, t, j)
    ensures ThreadsOf(st, tasks, plugins)[j].0 == t + Groups(st, tasks[t])[group].plugName
  {
    hide Ready, ThreadsOf, Groups, HasCfg, Serves;
    var i := GroupEntry(st, tasks[t], group);
    j := EntryServed(st, tasks, plugins, t, i);
    var x := tasks[t].content[i].name;
    assert ChannelOf(t, tasks[t]).names[i] == x;
  }
}
