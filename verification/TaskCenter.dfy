/**
 How the protocol configurations of the devices become the configurations of the protocol
 instances: one per device type in a collecting task, one per name in a transferring task.
 JSON tables are maps; a table that is missing or empty is a key that is absent.
 */
module TaskCenter {
  import opened MapOrder
  import opened Base

  datatype Cfg = Cfg(template: string, body: string, names: seq<string>, plugName: string)

  datatype Entry = Entry(name: string, devTypeName: string)

  /** A channel table, or the configuration built from it, which names the entries it serves. */
  datatype Channel = Channel(content: string, template: string)

  datatype ChannelCfg = ChannelCfg(channel: Channel, taskName: string, names: seq<string>)

  datatype Task = Task(trans: bool, content: seq<Entry>, channel: Channel)

  /** The protocol tables of devices and transfers, and the plugin each template names. */
  datatype Store = Store(devices: map<string, Cfg>, transfers: map<string, Cfg>, plugs: map<string, string>)

  function PlugName(st: Store, template: string): string {
    if template in st.plugs then st.plugs[template] else ""
  }

  // ---------------------------------------------------------------- the two groupings

  function CollAdd(st: Store, m: map<string, Cfg>, e: Entry): map<string, Cfg> {
    if e.name !in st.devices then m
    else
      var cfg := st.devices[e.name];
      var base := if e.devTypeName in m then m[e.devTypeName] else cfg;
      m[e.devTypeName := base.(names := base.names + [e.name], plugName := PlugName(st, cfg.template))]
  }

  function Coll(st: Store, content: seq<Entry>): map<string, Cfg> {
    if content == [] then map[]
    else CollAdd(st, Coll(st, content[..|content| - 1]), content[|content| - 1])
  }

  function TransAdd(st: Store, m: map<string, Cfg>, e: Entry): map<string, Cfg> {
    if e.name !in st.transfers then m
    else
      var cfg := st.transfers[e.name];
      m[e.name := cfg.(names := cfg.names + [e.name], plugName := PlugName(st, cfg.template))]
  }

  function Trans(st: Store, content: seq<Entry>): map<string, Cfg> {
    if content == [] then map[]
    else TransAdd(st, Trans(st, content[..|content| - 1]), content[|content| - 1])
  }

  function Groups(st: Store, task: Task): map<string, Cfg> {
    if task.trans then Trans(st, task.content) else Coll(st, task.content)
  }

  function InOrder(m: map<string, Cfg>): seq<Cfg> {
    AscendingWalk(m.Keys);
    var order := Ascending(m.Keys);
    seq(|order|, i requires 0 <= i < |order| => m[order[i]])
  }

  function Arranged(st: Store, tasks: map<string, Task>): map<string, seq<Cfg>> {
    map t | t in tasks && Groups(st, tasks[t]) != map[] :: InOrder(Groups(st, tasks[t]))
  }

  // ---------------------------------------------------------------- what a group holds

  /** The devices of one type that have a protocol table, in content order. */
  function OfType(st: Store, content: seq<Entry>, devType: string): (es: seq<Entry>)
    ensures forall e | e in es :: e.name in st.devices
  {
    if content == [] then []
    else
      var e := content[|content| - 1];
      OfType(st, content[..|content| - 1], devType) +
      (if e.devTypeName == devType && e.name in st.devices then [e] else [])
  }

  function NamesOf(es: seq<Entry>): seq<string> {
    seq(|es|, i requires 0 <= i < |es| => es[i].name)
  }

  /** The first device's table, the names of all of them in order, the plugin of the last one's template. */
  function Merged(st: Store, es: seq<Entry>): Cfg
    requires es != [] && forall e | e in es :: e.name in st.devices
  {
    var first, last := st.devices[es[0].name], st.devices[es[|es| - 1].name];
    first.(names := first.names + NamesOf(es), plugName := PlugName(st, last.template))
  }

  lemma MergedAppend(st: Store, es: seq<Entry>, e: Entry)
    requires es != [] && forall x | x in es + [e] :: x.name in st.devices
    ensures (forall x | x in es :: x in es + [e]) && e in es + [e]
    ensures e.name in st.devices && forall x | x in es :: x.name in st.devices
    ensures var m := Merged(st, es);
            Merged(st, es + [e]) ==
            m.(names := m.names + [e.name], plugName := PlugName(st, st.devices[e.name].template))
  {
    hide PlugName;
    assert e in es + [e] && forall x | x in es :: x in es + [e];
    assert NamesOf(es + [e]) == NamesOf(es) + [e.name];
    Assoc(st.devices[es[0].name].names, NamesOf(es), [e.name]);
  }

  lemma {:induction false} CollMerged(st: Store, content: seq<Entry>, devType: string)
    ensures var es := OfType(st, content, devType);
            && (devType in Coll(st, content) <==> es != [])
            && (es != [] ==> Coll(st, content)[devType] == Merged(st, es))
  {
    hide Merged, PlugName;
    if content != [] {
      var init, e := content[..|content| - 1], content[|content| - 1];
      CollMerged(st, init, devType);
      if e.devTypeName == devType && e.name in st.devices {
        var es := OfType(st, init, devType);
        assert OfType(st, content, devType) == es + [e];
        if es == [] {
          assert es + [e] == [e];
          MergedOne(st, e);
        } else {
          MergedAppend(st, es, e);
        }
      } else {
        assert OfType(st, content, devType) == OfType(st, init, devType);
      }
    }
  }

  lemma MergedOne(st: Store, e: Entry)
    requires e.name in st.devices
    ensures var cfg := st.devices[e.name];
            Merged(st, [e]) == cfg.(names := cfg.names + [e.name], plugName := PlugName(st, cfg.template))
  {
    assert NamesOf([e]) == [e.name];
  }

  /**
   The configuration of a device type: its first device's table, the names of all its devices with a
   table in order, and the plugin that the last one's template names.
   */
  lemma {:induction false} CollGroup(st: Store, content: seq<Entry>, devType: string)
    ensures var es := OfType(st, content, devType);
            && (devType in Coll(st, content) <==> es != [])
            && (es != [] ==>
                  && var cfg := Coll(st, content)[devType];
                  && var first := st.devices[es[0].name];
                  && var template := st.devices[es[|es| - 1].name].template;
                  && cfg.template == first.template && cfg.body == first.body
                  && |cfg.names| == |first.names| + |es| && cfg.names[..|first.names|] == first.names
                  && (forall i | 0 <= i < |es| :: cfg.names[|first.names| + i] == es[i].name)
                  && cfg.plugName == if template in st.plugs then st.plugs[template] else "")
  {
    hide Coll, OfType;
    CollMerged(st, content, devType);
  }

  predicate Listed(content: seq<Entry>, name: string) {
    exists i :: 0 <= i < |content| && content[i].name == name
  }

  /** A transferring task has one configuration per listed name with a table: its own, naming it once. */
  lemma {:induction false} TransGroup(st: Store, content: seq<Entry>, name: string)
    ensures name in Trans(st, content) <==> name in st.transfers && Listed(content, name)
    ensures name in Trans(st, content) ==>
              && var cfg := st.transfers[name];
              && Trans(st, content)[name] ==
                 cfg.(names := cfg.names + [name],
                 plugName := if cfg.template in st.plugs then st.plugs[cfg.template] else "")
  {
    if content != [] {
      var k := |content| - 1;
      TransGroup(st, content[..k], name);
      if Listed(content[..k], name) {
        var i :| 0 <= i < k && content[..k][i].name == name;
        assert content[i].name == name;
      }
    }
  }

  predicate HasCfg(st: Store, task: Task, i: nat)
    requires i < |task.content|
  {
    task.content[i].name in (if task.trans then st.transfers else st.devices)
  }

  function GroupKey(task: Task, i: nat): string
    requires i < |task.content|
  {
    if task.trans then task.content[i].name else task.content[i].devTypeName
  }

  /** Entry i has a protocol table and belongs to the group. */
  predicate Joins(st: Store, task: Task, i: nat, group: string) {
    i < |task.content| && HasCfg(st, task, i) && GroupKey(task, i) == group
  }

  /** No table comes with names of its own. */
  predicate NamesFree(st: Store) {
    && (forall n | n in st.devices :: st.devices[n].names == [])
    && (forall n | n in st.transfers :: st.transfers[n].names == [])
  }

  /** Every entry with a table is named by its group. */
  lemma {:induction false} GroupNamesEntry(st: Store, task: Task, i: nat, group: string)
    requires Joins(st, task, i, group)
    ensures group in Groups(st, task) && task.content[i].name in Groups(st, task)[group].names
    decreases |task.content|
  {
    var k := |task.content| - 1;
    var less := task.(content := task.content[..k]);
    if i < k {
      assert Joins(st, less, i, group);
      GroupNamesEntry(st, less, i, group);
    }
  }

  /** A group names no one else. */
  lemma {:induction false} NamedByGroup(st: Store, task: Task, group: string, x: string) returns (i: nat)
    requires NamesFree(st) && group in Groups(st, task) && x in Groups(st, task)[group].names
    ensures Joins(st, task, i, group) && task.content[i].name == x
    decreases |task.content|
  {
    var k := |task.content| - 1;
    var less := task.(content := task.content[..k]);
    if group in Groups(st, less) && x in Groups(st, less)[group].names {
      i := NamedByGroup(st, less, group, x);
      assert less.content[i] == task.content[i];
    } else {
      i := k;
    }
  }

  // ---------------------------------------------------------------- every device in one configuration

  predicate SameEntry(tasks: map<string, Task>, t: string, i: nat, t': string, i': nat)
    requires t in tasks && i < |tasks[t].content| && t' in tasks && i' < |tasks[t'].content|
  {
    tasks[t].content[i].name == tasks[t'].content[i'].name ==> t == t' && i == i'
  }

  /** A device or transfer is listed once, in one task. */
  predicate UniqueEntries(tasks: map<string, Task>) {
    forall t, i: nat, t', i': nat
      | t in tasks && i < |tasks[t].content| && t' in tasks && i' < |tasks[t'].content| ::
      SameEntry(tasks, t, i, t', i')
  }

  /** Configuration j of task t names x. */
  predicate Names(cfgs: map<string, seq<Cfg>>, t: string, j: nat, x: string) {
    t in cfgs && j < |cfgs[t]| && x in cfgs[t][j].names
  }

  lemma {:induction false} EntryArranged(st: Store, tasks: map<string, Task>, t: string, i: nat) returns (j: nat)
    requires t in tasks && i < |tasks[t].content| && HasCfg(st, tasks[t], i)
    ensures Names(Arranged(st, tasks), t, j, tasks[t].content[i].name)
    ensures GroupKey(tasks[t], i) in Groups(st, tasks[t])
    ensures Arranged(st, tasks)[t][j] == Groups(st, tasks[t])[GroupKey(tasks[t], i)]
  {
    hide Groups;
    var group := GroupKey(tasks[t], i);
    GroupNamesEntry(st, tasks[t], i, group);
    var m := Groups(st, tasks[t]);
    AscendingWalk(m.Keys);
    assert group in m.Keys;
    j :| 0 <= j < |Ascending(m.Keys)| && Ascending(m.Keys)[j] == group;
  }

  lemma {:induction false} ArrangedEntry(st: Store, tasks: map<string, Task>, t: string, j: nat, x: string)
    returns (i: nat)
    requires NamesFree(st) && Names(Arranged(st, tasks), t, j, x)
    ensures t in tasks && i < |tasks[t].content| && tasks[t].content[i].name == x
    ensures var keys := Groups(st, tasks[t]).Keys;
            j < |Ascending(keys)| && Ascending(keys)[j] == GroupKey(tasks[t], i)
  {
    hide Groups;
    var m := Groups(st, tasks[t]);
    AscendingWalk(m.Keys);
    var group := Ascending(m.Keys)[j];
    assert group in m.Keys;
    i := NamedByGroup(st, tasks[t], group, x);
  }

  /** No name is in two configurations. */
  lemma {:induction false} NamedOnce(st: Store, tasks: map<string, Task>, t: string, j: nat, t': string, j': nat,
                                     x: string)
    requires NamesFree(st) && UniqueEntries(tasks)
    requires Names(Arranged(st, tasks), t, j, x) && Names(Arranged(st, tasks), t', j', x)
    ensures t == t' && j == j'
  {
    hide Groups, Arranged, HasCfg;
    var i := ArrangedEntry(st, tasks, t, j, x);
    var i' := ArrangedEntry(st, tasks, t', j', x);
    assert SameEntry(tasks, t, i, t', i');
    AscendingWalk(Groups(st, tasks[t]).Keys);
  }

  // ---------------------------------------------------------------- the channels' configurations

  function ChannelOf(name: string, task: Task): ChannelCfg {
    ChannelCfg(task.channel, name, NamesOf(task.content))
  }

  function ChannelCfgs(tasks: map<string, Task>): seq<ChannelCfg> {
    AscendingWalk(tasks.Keys);
    var order := Ascending(tasks.Keys);
    seq(|order|, k requires 0 <= k < |order| => ChannelOf(order[k], tasks[order[k]]))
  }

  /** Every entry is served by its own task's channel, and with every entry listed once by no other. */
  lemma {:induction false} ServedByOneChannel(tasks: map<string, Task>, t: string, i: nat) returns (k: nat)
    requires UniqueEntries(tasks) && t in tasks && i < |tasks[t].content|
    ensures var cfgs, x := ChannelCfgs(tasks), tasks[t].content[i].name;
            && k < |cfgs| && cfgs[k].taskName == t && cfgs[k].channel == tasks[t].channel && x in cfgs[k].names
            && forall j | 0 <= j < |cfgs| && x in cfgs[j].names :: j == k
  {
    hide UniqueEntries, Ascending;
    var order, x := Ascending(tasks.Keys), tasks[t].content[i].name;
    AscendingWalk(tasks.Keys);
    assert t in tasks.Keys;
    k :| 0 <= k < |order| && order[k] == t;
    var cfgs := ChannelCfgs(tasks);
    assert cfgs[k].names[i] == x;
    forall j | 0 <= j < |cfgs| && x in cfgs[j].names ensures j == k {
      var n :| 0 <= n < |cfgs[j].names| && cfgs[j].names[n] == x;
      assert order[j] in tasks.Keys;
      ListedOnce(tasks, t, i, order[j], n);
    }
  }

  lemma ListedOnce(tasks: map<string, Task>, t: string, i: nat, t': string, i': nat)
    requires UniqueEntries(tasks)
    requires t in tasks && i < |tasks[t].content| && t' in tasks && i' < |tasks[t'].content|
    requires tasks[t].content[i].name == tasks[t'].content[i'].name
    ensures t == t' && i == i'
  {
    assert SameEntry(tasks, t, i, t', i');
  }

  // ---------------------------------------------------------------- the loops

  lemma InOrderAt(m: map<string, Cfg>)
    ensures var order := Ascending(m.Keys);
            && |InOrder(m)| == |order|
            && (forall i | 0 <= i < |order| :: order[i] in m && InOrder(m)[i] == m[order[i]])
            && (m == map[] <==> order == [])
  {
    AscendingWalk(m.Keys);
    if m != map[] {
      var k :| k in m.Keys;
      assert k in Ascending(m.Keys);
    }
  }

  /** The arrangement of the tasks visited so far. */
  ghost predicate Restricted(st: Store, tasks: map<string, Task>, done: seq<string>, m: map<string, seq<Cfg>>) {
    && (forall t :: t in m <==> t in tasks && t in done && Groups(st, tasks[t]) != map[])
    && (forall t | t in m :: m[t] == InOrder(Groups(st, tasks[t])))
  }

  lemma RestrictedNone(st: Store, tasks: map<string, Task>)
    ensures Restricted(st, tasks, [], map[])
  {
  }

  lemma RestrictedFresh(st: Store, tasks: map<string, Task>, done: seq<string>, m: map<string, seq<Cfg>>, t: string)
    requires Restricted(st, tasks, done, m) && t !in done
    ensures t !in m
  {
    hide Groups, InOrder;
  }

  lemma RestrictedNext(st: Store, tasks: map<string, Task>, done: seq<string>, m: map<string, seq<Cfg>>, t: string,
                       m': map<string, seq<Cfg>>)
    requires Restricted(st, tasks, done, m) && t in tasks && t !in done
    requires var g := Groups(st, tasks[t]); m' == if g == map[] then m else m[t := InOrder(g)]
    ensures Restricted(st, tasks, done + [t], m')
  {
    hide Groups, InOrder;
  }

  lemma RestrictedAll(st: Store, tasks: map<string, Task>, done: seq<string>, m: map<string, seq<Cfg>>)
    requires Restricted(st, tasks, done, m) && forall t :: t in done <==> t in tasks.Keys
    ensures m == Arranged(st, tasks)
  {
    hide Groups, InOrder;
  }

  class TaskCenter {
    const st: Store
    var mapProtocolCfg: map<string, seq<Cfg>>
    var vecChannelCfg: seq<ChannelCfg>

    constructor (st: Store)
      ensures this.st == st && mapProtocolCfg == map[] && vecChannelCfg == []
    {
      this.st := st;
      mapProtocolCfg, vecChannelCfg := map[], [];
    }

    /** The channel's configuration is the channel table with a task's name and the names of its entries. */
    method PushChannel(name: string, task: Task)
      modifies this`vecChannelCfg
      ensures vecChannelCfg == old(vecChannelCfg) + [ChannelOf(name, task)]
    {
      var names := [];
      for i := 0 to |task.content|
        invariant names == NamesOf(task.content)[..i]
      {
        names := names + [task.content[i].name];
      }
      assert NamesOf(task.content)[..|task.content|] == NamesOf(task.content);
      vecChannelCfg := vecChannelCfg + [ChannelCfg(task.channel, name, names)];
    }

    method ArrangeCollCfg(content: seq<Entry>) returns (mapProtocol: map<string, Cfg>)
      ensures mapProtocol == Coll(st, content)
    {
      mapProtocol := map[];
      for i := 0 to |content|
        invariant mapProtocol == Coll(st, content[..i])
      {
        assert content[..i + 1][..i] == content[..i];
        var e := content[i];
        if e.name !in st.devices { continue; }
        var cfg := st.devices[e.name];
        if e.devTypeName !in mapProtocol {
          mapProtocol := mapProtocol[e.devTypeName := cfg.(names := cfg.names + [e.name])];
        } else {
          var group := mapProtocol[e.devTypeName];
          mapProtocol := mapProtocol[e.devTypeName := group.(names := group.names + [e.name])];
        }
        var plugName := PlugName(st, cfg.template);
        mapProtocol := mapProtocol[e.devTypeName := mapProtocol[e.devTypeName].(plugName := plugName)];
      }
      assert content[..|content|] == content;
    }

    method ArrangeTransCfg(content: seq<Entry>) returns (mapProtocol: map<string, Cfg>)
      ensures mapProtocol == Trans(st, content)
    {
      mapProtocol := map[];
      for i := 0 to |content|
        invariant mapProtocol == Trans(st, content[..i])
      {
        assert content[..i + 1][..i] == content[..i];
        var e := content[i];
        if e.name !in st.transfers { continue; }
        var cfg := st.transfers[e.name];
        mapProtocol := mapProtocol[e.name := cfg.(names := cfg.names + [e.name])];
        var plugName := PlugName(st, cfg.template);
        mapProtocol := mapProtocol[e.name := mapProtocol[e.name].(plugName := plugName)];
      }
      assert content[..|content|] == content;
    }

    method ArrangeTask(task: Task) returns (mapProtocol: map<string, Cfg>)
      ensures mapProtocol == Groups(st, task)
    {
      if !task.trans {
        mapProtocol := ArrangeCollCfg(task.content);
      } else {
        mapProtocol := ArrangeTransCfg(task.content);
      }
    }

    /** The loop over one task's groups, in the map's order. */
    method PushGroups(name: string, mapProtocol: map<string, Cfg>)
      requires name !in mapProtocolCfg
      modifies this`mapProtocolCfg
      ensures mapProtocol == map[] ==> mapProtocolCfg == old(mapProtocolCfg)
      ensures mapProtocol != map[] ==> mapProtocolCfg == old(mapProtocolCfg)[name := InOrder(mapProtocol)]
    {
      hide InOrder, Ascending, NoDuplicates;
      InOrderAt(mapProtocol);
      var order := Ascending(mapProtocol.Keys);
      ghost var all := InOrder(mapProtocol);
      for i := 0 to |order|
        modifies this`mapProtocolCfg
        invariant mapProtocolCfg == if i == 0 then old(mapProtocolCfg) else old(mapProtocolCfg)[name := all[..i]]
      {
        var cfgs := if name in mapProtocolCfg then mapProtocolCfg[name] else [];
        assert cfgs == all[..i] && all[..i] + [all[i]] == all[..i + 1];
        mapProtocolCfg := mapProtocolCfg[name := cfgs + [mapProtocol[order[i]]]];
      }
      assert all[..|order|] == all;
    }

    method ArrangeCfg(tasks: map<string, Task>)
      requires mapProtocolCfg == map[]
      modifies this`mapProtocolCfg, this`vecChannelCfg
      ensures mapProtocolCfg == Arranged(st, tasks)
      ensures vecChannelCfg == old(vecChannelCfg) + ChannelCfgs(tasks)
    {
      hide InOrder, Ascending, Groups, NoDuplicates, Arranged, Restricted, ChannelOf;
      AscendingWalk(tasks.Keys);
      var vecName := Ascending(tasks.Keys);
      ghost var channels := ChannelCfgs(tasks);
      RestrictedNone(st, tasks);
      assert vecName[..0] == [] && vecName[..|vecName|] == vecName && channels[..|vecName|] == channels;
      for i := 0 to |vecName|
        modifies this`mapProtocolCfg, this`vecChannelCfg
        invariant Restricted(st, tasks, vecName[..i], mapProtocolCfg)
        invariant vecChannelCfg == old(vecChannelCfg) + channels[..i]
      {
        var name := vecName[i];
        assert name in tasks.Keys;
        PushChannel(name, tasks[name]);
        assert channels[..i + 1] == channels[..i] + [channels[i]];
        Assoc(old(vecChannelCfg), channels[..i], [channels[i]]);
        var mapProtocol := ArrangeTask(tasks[name]);
        ghost var done := mapProtocolCfg;
        RestrictedFresh(st, tasks, vecName[..i], done, name);
        PushGroups(name, mapProtocol);
        RestrictedNext(st, tasks, vecName[..i], done, name, mapProtocolCfg);
        assert vecName[..i + 1] == vecName[..i] + [name];
      }
      RestrictedAll(st, tasks, vecName, mapProtocolCfg);
    }
  }
}
