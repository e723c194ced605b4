/**
 Protocol instances and their configurations, which meet only by position: loading a plugin
 appends instances to one list, then its configuration is appended to another. A plugin is the
 number of instances its initProtocol registers (0 for a library that cannot be loaded).
 */
module ProtocolManager {
  import Base
  import opened MapOrder
  import opened TaskCenter

  type Plugins = map<string, nat>

  /** One turn of createProtocol's inner loop: the index-th configuration of a task. */
  datatype Load = Load(task: string, index: nat, cfg: Cfg)

  /** The nth object that the load registered. */
  datatype Instance = Instance(load: nat, nth: nat)

  function Key(l: Load): string {
    l.task + l.cfg.plugName
  }

  function Count(plugins: Plugins, l: Load): nat {
    if l.cfg.plugName in plugins then plugins[l.cfg.plugName] else 0
  }

  // ---------------------------------------------------------------- the two lists of a key

  function Registered(load: nat, count: nat): seq<Instance> {
    seq(count, (n: nat) => Instance(load, n))
  }

  function Made(loads: seq<Load>, plugins: Plugins, key: string): seq<Instance> {
    if loads == [] then []
    else
      var g := |loads| - 1;
      Made(loads[..g], plugins, key) +
      (if Key(loads[g]) == key then Registered(g, Count(plugins, loads[g])) else [])
  }

  function Configs(loads: seq<Load>, key: string): seq<Cfg> {
    if loads == [] then []
    else
      var g := |loads| - 1;
      Configs(loads[..g], key) + (if Key(loads[g]) == key then [loads[g].cfg] else [])
  }

  /** The loads of a key. */
  function Indices(loads: seq<Load>, key: string): (r: seq<nat>)
    ensures |r| == |Configs(loads, key)|
    ensures forall i | 0 <= i < |r| ::
              r[i] < |loads| && loads[r[i]].cfg == Configs(loads, key)[i] && Key(loads[r[i]]) == key
    ensures forall i, j | 0 <= i < j < |r| :: r[i] < r[j]
  {
    if loads == [] then []
    else
      var g := |loads| - 1;
      Indices(loads[..g], key) + (if Key(loads[g]) == key then [g] else [])
  }

  lemma {:induction false} MadeByLoads(loads: seq<Load>, plugins: Plugins, key: string)
    ensures forall i | 0 <= i < |Made(loads, plugins, key)| ::
              var g := Made(loads, plugins, key)[i].load;
              g < |loads| && Key(loads[g]) == key
  {
    if loads != [] {
      MadeByLoads(loads[..|loads| - 1], plugins, key);
    }
  }

  // ---------------------------------------------------------------- when position pairs them rightly

  /** Every instance stands beside the configuration it was loaded for, and no configuration is left over. */
  predicate Right(loads: seq<Load>, plugins: Plugins, key: string) {
    var made, idx := Made(loads, plugins, key), Indices(loads, key);
    |made| == |idx| && forall i | 0 <= i < |made| :: made[i].load == idx[i]
  }

  predicate OneEach(loads: seq<Load>, plugins: Plugins) {
    forall g | 0 <= g < |loads| :: Count(plugins, loads[g]) == 1
  }

  /** One instance each: every configuration names a plugin that can be loaded and registers one. */
  lemma {:induction false} OneEachIs(loads: seq<Load>, plugins: Plugins)
    ensures OneEach(loads, plugins) <==>
            forall l | l in loads :: l.cfg.plugName in plugins && plugins[l.cfg.plugName] == 1
  {
    if OneEach(loads, plugins) {
      forall l | l in loads
        ensures l.cfg.plugName in plugins && plugins[l.cfg.plugName] == 1
      {
        var g :| 0 <= g < |loads| && loads[g] == l;
        assert Count(plugins, loads[g]) == 1;
      }
    }
  }

  lemma {:induction false} OneEachRight(loads: seq<Load>, plugins: Plugins, key: string)
    requires OneEach(loads, plugins)
    ensures Right(loads, plugins, key)
    ensures forall i | 0 <= i < |Made(loads, plugins, key)| :: Made(loads, plugins, key)[i].nth == 0
  {
    if loads != [] {
      OneEachRight(loads[..|loads| - 1], plugins, key);
    }
  }

  lemma CountOne(before: seq<Instance>, g: nat, c: nat, idx: seq<nat>)
    requires forall i | 0 <= i < |before| :: before[i].load < g
    requires forall i | 0 <= i < |idx| :: idx[i] < g
    requires |before| + c == |idx| + 1
    requires forall i | 0 <= i <= |idx| :: (before + Registered(g, c))[i].load == (idx + [g])[i]
    ensures c == 1
  {
    var made := before + Registered(g, c);
    assert forall i | 0 <= i < |before| :: made[i] == before[i];
    assert forall i | 0 <= i < |idx| :: (idx + [g])[i] == idx[i];
    assert made[|idx|].load == (idx + [g])[|idx|] == g;
    assert c >= 1;
    assert made[|before|] == Registered(g, c)[0];
  }

  /** The last load of a key registered one instance, and those before it are paired rightly too. */
  lemma {:induction false} RightLast(loads: seq<Load>, plugins: Plugins, key: string)
    requires loads != [] && Right(loads, plugins, key)
    ensures Right(loads[..|loads| - 1], plugins, key)
    ensures Key(loads[|loads| - 1]) == key ==> Count(plugins, loads[|loads| - 1]) == 1
  {
    var g := |loads| - 1;
    var init := loads[..g];
    var before, idx := Made(init, plugins, key), Indices(init, key);
    MadeByLoads(init, plugins, key);
    if Key(loads[g]) == key {
      var made := Made(loads, plugins, key);
      var c := Count(plugins, loads[g]);
      assert |made| == |before| + c && |made| == |idx| + 1;
      CountOne(before, g, c, idx);
      forall i | 0 <= i < |before| ensures before[i].load == idx[i] {
        assert made[i] == before[i] && Indices(loads, key)[i] == idx[i];
      }
    } else {
      assert Made(loads, plugins, key) == before && Indices(loads, key) == idx;
    }
  }

  /** Position pairs every instance with its own configuration exactly when every load registers one instance. */
  lemma {:induction false} RightIff(loads: seq<Load>, plugins: Plugins)
    ensures (forall key :: Right(loads, plugins, key)) <==> OneEach(loads, plugins)
  {
    if forall key :: Right(loads, plugins, key) {
      AllRight(loads, plugins);
    }
    if OneEach(loads, plugins) {
      forall key ensures Right(loads, plugins, key) {
        OneEachRight(loads, plugins, key);
      }
    }
  }

  /** A plugin that cannot be loaded leaves the instances of some key beside the wrong configurations. */
  lemma {:induction false} UnloadableBreaks(loads: seq<Load>, plugins: Plugins, g: nat)
    requires g < |loads| && loads[g].cfg.plugName !in plugins
    ensures exists key :: !Right(loads, plugins, key)
  {
    RightIff(loads, plugins);
  }

  lemma {:induction false} AllRight(loads: seq<Load>, plugins: Plugins)
    requires forall key :: Right(loads, plugins, key)
    ensures OneEach(loads, plugins)
  {
    hide Right;
    if loads != [] {
      var g := |loads| - 1;
      forall key ensures Right(loads[..g], plugins, key) {
        RightLast(loads, plugins, key);
      }
      AllRight(loads[..g], plugins);
      RightLast(loads, plugins, Key(loads[g]));
      forall h | 0 <= h < |loads| ensures Count(plugins, loads[h]) == 1 {
        if h < g {
          assert loads[..g][h] == loads[h];
        }
      }
    }
  }

  // ---------------------------------------------------------------- start

  type Pair = (Instance, Cfg)

  /** The keys under which something registered. */
  function RegisteredKeys(loads: seq<Load>, plugins: Plugins): set<string> {
    set g | 0 <= g < |loads| && Count(plugins, loads[g]) > 0 :: Key(loads[g])
  }

  /** No key has more instances than configurations, so start reads no vector beyond its end. */
  ghost predicate Defined(loads: seq<Load>, plugins: Plugins) {
    forall key :: |Made(loads, plugins, key)| <= |Configs(loads, key)|
  }

  /** What start initialises for one key: the i-th instance with the i-th configuration. */
  function KeyPairs(made: seq<Instance>, cfgs: seq<Cfg>): seq<Pair> {
    var n := if |made| <= |cfgs| then |made| else |cfgs|;
    seq(n, i requires 0 <= i < n => (made[i], cfgs[i]))
  }

  function PairsIn(loads: seq<Load>, plugins: Plugins, order: seq<string>): seq<Pair> {
    if order == [] then []
    else
      var key := order[|order| - 1];
      PairsIn(loads, plugins, order[..|order| - 1]) + KeyPairs(Made(loads, plugins, key), Configs(loads, key))
  }

  function AllPairs(loads: seq<Load>, plugins: Plugins): seq<Pair> {
    PairsIn(loads, plugins, Ascending(RegisteredKeys(loads, plugins)))
  }

  function Bind(m: map<string, Instance>, names: seq<string>, inst: Instance): map<string, Instance> {
    if names == [] then m
    else Bind(m, names[..|names| - 1], inst)[names[|names| - 1] := inst]
  }

  /** m_mapProtocolPtr after the pairs have been started in order. */
  function Ptr(pairs: seq<Pair>): map<string, Instance> {
    if pairs == [] then map[]
    else
      var last := pairs[|pairs| - 1];
      Bind(Ptr(pairs[..|pairs| - 1]), last.1.names, last.0)
  }

  /** What a protocol thread is given for one instance: it and the devices it serves. */
  datatype Info = Info(prot: Instance, names: seq<string>)

  function InfosOf(pairs: seq<Pair>): seq<Info> {
    seq(|pairs|, i requires 0 <= i < |pairs| => Info(pairs[i].0, pairs[i].1.names))
  }

  /** One thread for each key, with all instances of the key. */
  function ThreadsIn(loads: seq<Load>, plugins: Plugins, order: seq<string>): seq<(string, seq<Info>)> {
    seq(|order|, k requires 0 <= k < |order| =>
      (order[k], InfosOf(KeyPairs(Made(loads, plugins, order[k]), Configs(loads, order[k])))))
  }

  function AllInfos(threads: seq<(string, seq<Info>)>): seq<Info> {
    if threads == [] then [] else AllInfos(threads[..|threads| - 1]) + threads[|threads| - 1].1
  }

  /** The threads together serve the pairs that start initialises, in that order and each once. */
  lemma {:induction false} ThreadsServePairs(loads: seq<Load>, plugins: Plugins, order: seq<string>)
    ensures AllInfos(ThreadsIn(loads, plugins, order)) == InfosOf(PairsIn(loads, plugins, order))
  {
    hide Made, Configs, KeyPairs;
    if order == [] {
      assert ThreadsIn(loads, plugins, order) == [];
    } else {
      var k := |order| - 1;
      var last := KeyPairs(Made(loads, plugins, order[k]), Configs(loads, order[k]));
      assert ThreadsIn(loads, plugins, order)[..k] == ThreadsIn(loads, plugins, order[..k]);
      ThreadsServePairs(loads, plugins, order[..k]);
      InfosConcat(PairsIn(loads, plugins, order[..k]), last);
    }
  }

  predicate DistinctInstances(pairs: seq<Pair>) {
    forall p, q | 0 <= p < q < |pairs| :: pairs[p].0 != pairs[q].0
  }

  lemma {:induction false} MadeDistinct(loads: seq<Load>, plugins: Plugins, key: string)
    ensures forall i, j | 0 <= i < j < |Made(loads, plugins, key)| ::
              Made(loads, plugins, key)[i] != Made(loads, plugins, key)[j]
  {
    if loads != [] {
      var g := |loads| - 1;
      MadeDistinct(loads[..g], plugins, key);
      MadeByLoads(loads[..g], plugins, key);
    }
  }

  /** Whose instances a run of pairs holds: those of loads under the keys walked. */
  lemma {:induction false} PairsUnder(loads: seq<Load>, plugins: Plugins, order: seq<string>)
    ensures forall p | 0 <= p < |PairsIn(loads, plugins, order)| ::
              var g := PairsIn(loads, plugins, order)[p].0.load;
              g < |loads| && Key(loads[g]) in order
  {
    if order != [] {
      var k := |order| - 1;
      PairsUnder(loads, plugins, order[..k]);
      MadeByLoads(loads, plugins, order[k]);
    }
  }

  lemma {:induction false} PairsDistinct(loads: seq<Load>, plugins: Plugins, order: seq<string>)
    requires NoDuplicates(order)
    ensures DistinctInstances(PairsIn(loads, plugins, order))
  {
    hide Made, Configs;
    if order != [] {
      var k := |order| - 1;
      var before := PairsIn(loads, plugins, order[..k]);
      var last := KeyPairs(Made(loads, plugins, order[k]), Configs(loads, order[k]));
      PairsDistinct(loads, plugins, order[..k]);
      PairsUnder(loads, plugins, order[..k]);
      MadeByLoads(loads, plugins, order[k]);
      MadeDistinct(loads, plugins, order[k]);
      JoinDistinct(before, last);
    }
  }

  lemma JoinDistinct(a: seq<Pair>, b: seq<Pair>)
    requires DistinctInstances(a) && DistinctInstances(b)
    requires forall p, q | 0 <= p < |a| && 0 <= q < |b| :: a[p].0 != b[q].0
    ensures DistinctInstances(a + b)
  {
  }

  /** start initialises no instance twice, and no two threads share one. */
  lemma {:induction false} EachInstanceOnce(loads: seq<Load>, plugins: Plugins)
    ensures DistinctInstances(AllPairs(loads, plugins))
  {
    AscendingWalk(RegisteredKeys(loads, plugins));
    PairsDistinct(loads, plugins, Ascending(RegisteredKeys(loads, plugins)));
  }

  lemma PtrSnoc(pairs: seq<Pair>, last: Pair)
    ensures Ptr(pairs + [last]) == Bind(Ptr(pairs), last.1.names, last.0)
  {
    assert (pairs + [last])[..|pairs|] == pairs;
  }

  lemma PairsNext(loads: seq<Load>, plugins: Plugins, order: seq<string>, k: nat)
    requires k < |order|
    ensures PairsIn(loads, plugins, order[..k + 1])
         == PairsIn(loads, plugins, order[..k]) + KeyPairs(Made(loads, plugins, order[k]), Configs(loads, order[k]))
  {
    assert order[..k + 1][..k] == order[..k];
  }

  lemma StartNothing(loads: seq<Load>, plugins: Plugins)
    ensures PairsIn(loads, plugins, []) == [] && Ptr([]) == map[]
  {
  }

  lemma InfosConcat(a: seq<Pair>, b: seq<Pair>)
    ensures InfosOf(a + b) == InfosOf(a) + InfosOf(b)
  {
  }

  lemma {:induction false} BindHas(m: map<string, Instance>, names: seq<string>, inst: Instance, x: string)
    ensures x in names ==> x in Bind(m, names, inst) && Bind(m, names, inst)[x] == inst
    ensures x !in names ==> (x in Bind(m, names, inst) <==> x in m)
    ensures x !in names && x in m ==> Bind(m, names, inst)[x] == m[x]
  {
    if names != [] {
      BindHas(m, names[..|names| - 1], inst, x);
      assert x in names <==> x in names[..|names| - 1] || x == names[|names| - 1];
    }
  }

  lemma {:induction false} PtrHas(pairs: seq<Pair>, p: nat, x: string)
    requires p < |pairs| && x in pairs[p].1.names
    requires forall q | 0 <= q < |pairs| && x in pairs[q].1.names :: pairs[q].0 == pairs[p].0
    ensures x in Ptr(pairs) && Ptr(pairs)[x] == pairs[p].0
  {
    var k := |pairs| - 1;
    BindHas(Ptr(pairs[..k]), pairs[k].1.names, pairs[k].0, x);
    if p < k {
      PtrHas(pairs[..k], p, x);
    }
  }

  predicate Matches(loads: seq<Load>, pair: Pair) {
    pair.0.load < |loads| && pair.0.nth == 0 && pair.1 == loads[pair.0.load].cfg
  }

  lemma {:induction false} PairsMatch(loads: seq<Load>, plugins: Plugins, order: seq<string>)
    requires OneEach(loads, plugins)
    ensures forall q | 0 <= q < |PairsIn(loads, plugins, order)| :: Matches(loads, PairsIn(loads, plugins, order)[q])
  {
    hide OneEach;
    if order != [] {
      var k := |order| - 1;
      PairsMatch(loads, plugins, order[..k]);
      OneEachRight(loads, plugins, order[k]);
    }
  }

  lemma {:induction false} LoadPaired(loads: seq<Load>, plugins: Plugins, order: seq<string>, g: nat)
    returns (q: nat)
    requires OneEach(loads, plugins) && g < |loads| && Key(loads[g]) in order
    ensures q < |PairsIn(loads, plugins, order)| && PairsIn(loads, plugins, order)[q].0 == Instance(g, 0)
  {
    hide OneEach;
    var k := |order| - 1;
    if order[k] == Key(loads[g]) {
      OneEachRight(loads, plugins, order[k]);
      var i := IndexOfLoad(loads, g);
      q := |PairsIn(loads, plugins, order[..k])| + i;
    } else {
      q := LoadPaired(loads, plugins, order[..k], g);
    }
  }

  lemma {:induction false} IndexOfLoad(loads: seq<Load>, g: nat) returns (i: nat)
    requires g < |loads|
    ensures i < |Indices(loads, Key(loads[g]))| && Indices(loads, Key(loads[g]))[i] == g
  {
    var k := |loads| - 1;
    if g == k {
      i := |Indices(loads, Key(loads[g]))| - 1;
    } else {
      i := IndexOfLoad(loads[..k], g);
    }
  }

  lemma {:induction false} OneEachDefined(loads: seq<Load>, plugins: Plugins)
    requires OneEach(loads, plugins)
    ensures Defined(loads, plugins)
  {
    forall key ensures |Made(loads, plugins, key)| <= |Configs(loads, key)| {
      OneEachRight(loads, plugins, key);
    }
  }

  // ---------------------------------------------------------------- from tasks to instances

  function TaskLoads(task: string, cfgs: seq<Cfg>): seq<Load> {
    seq(|cfgs|, j requires 0 <= j < |cfgs| => Load(task, j, cfgs[j]))
  }

  function LoadsIn(cfgs: map<string, seq<Cfg>>, order: seq<string>): seq<Load>
    requires forall t | t in order :: t in cfgs
  {
    if order == [] then []
    else
      var t := order[|order| - 1];
      LoadsIn(cfgs, order[..|order| - 1]) + TaskLoads(t, cfgs[t])
  }

  /** createProtocol's loads, task by task in the map's order. */
  function Loads(cfgs: map<string, seq<Cfg>>): seq<Load> {
    AscendingWalk(cfgs.Keys);
    LoadsIn(cfgs, Ascending(cfgs.Keys))
  }

  lemma {:induction false} LoadsFrom(cfgs: map<string, seq<Cfg>>, order: seq<string>)
    requires forall t | t in order :: t in cfgs
    ensures forall g | 0 <= g < |LoadsIn(cfgs, order)| ::
              var l := LoadsIn(cfgs, order)[g];
              l.task in order && l.index < |cfgs[l.task]| && l.cfg == cfgs[l.task][l.index]
  {
    if order != [] {
      LoadsFrom(cfgs, order[..|order| - 1]);
    }
  }

  predicate DistinctOrigins(ls: seq<Load>) {
    forall g, h | 0 <= g < h < |ls| :: ls[g].task != ls[h].task || ls[g].index != ls[h].index
  }

  lemma {:induction false} LoadsDistinct(cfgs: map<string, seq<Cfg>>, order: seq<string>)
    requires NoDuplicates(order) && forall t | t in order :: t in cfgs
    ensures DistinctOrigins(LoadsIn(cfgs, order))
  {
    if order != [] {
      var k := |order| - 1;
      LoadsDistinct(cfgs, order[..k]);
      LoadsFrom(cfgs, order[..k]);
      var before := LoadsIn(cfgs, order[..k]);
      var last := TaskLoads(order[k], cfgs[order[k]]);
      var ls := LoadsIn(cfgs, order);
      assert ls == before + last;
      forall g, h | 0 <= g < h < |ls| ensures ls[g].task != ls[h].task || ls[g].index != ls[h].index {
        assert h < |before| ==> ls[g] == before[g] && ls[h] == before[h];
        assert g < |before| ==> ls[g] == before[g] && before[g].task in order[..k];
        assert h >= |before| ==> ls[h] == last[h - |before|];
        assert g >= |before| ==> ls[g] == last[g - |before|];
      }
    }
  }

  lemma {:induction false} LoadOf(cfgs: map<string, seq<Cfg>>, order: seq<string>, t: string, j: nat) returns (g: nat)
    requires (forall t | t in order :: t in cfgs) && t in order && j < |cfgs[t]|
    ensures g < |LoadsIn(cfgs, order)| && LoadsIn(cfgs, order)[g] == Load(t, j, cfgs[t][j])
  {
    var k := |order| - 1;
    if order[k] == t {
      g := |LoadsIn(cfgs, order[..k])| + j;
    } else {
      g := LoadOf(cfgs, order[..k], t, j);
    }
  }

  /** Entry i of task t is named by load g and by no other. */
  lemma {:induction false} NamedByOneLoad(st: Store, tasks: map<string, Task>, t: string, i: nat) returns (g: nat)
    requires NamesFree(st) && UniqueEntries(tasks)
    requires t in tasks && i < |tasks[t].content| && HasCfg(st, tasks[t], i)
    ensures var ls := Loads(Arranged(st, tasks));
            var group := GroupKey(tasks[t], i);
            && g < |ls| && ls[g].task == t
            && group in Groups(st, tasks[t]) && ls[g].cfg == Groups(st, tasks[t])[group]
            && tasks[t].content[i].name in ls[g].cfg.names
            && (forall h | 0 <= h < |ls| && tasks[t].content[i].name in ls[h].cfg.names :: h == g)
  {
    hide NamesFree, UniqueEntries, HasCfg, GroupKey, Groups, Arranged, LoadsIn, Ascending, NoDuplicates;
    var cfgs := Arranged(st, tasks);
    var x := tasks[t].content[i].name;
    var j := EntryArranged(st, tasks, t, i);
    AscendingWalk(cfgs.Keys);
    var order := Ascending(cfgs.Keys);
    assert t in cfgs.Keys;
    g := LoadOf(cfgs, order, t, j);
    LoadsFrom(cfgs, order);
    LoadsDistinct(cfgs, order);
    var ls := Loads(cfgs);
    forall h | 0 <= h < |ls| && x in ls[h].cfg.names ensures h == g {
      assert ls[h].task in order;
      assert Names(cfgs, ls[h].task, ls[h].index, x);
      NamedOnce(st, tasks, t, j, ls[h].task, ls[h].index, x);
    }
  }

  /**
   When every load registers one instance and every device is listed once, a device with a protocol
   table is attached to one instance, the one made for its group and initialised with the group's
   configuration, and no other instance is initialised with a configuration that names it.
   */
  lemma {:induction false} EachDeviceAttachedOnce(st: Store, tasks: map<string, Task>, plugins: Plugins,
                                                  t: string, i: nat)
    returns (g: nat)
    requires NamesFree(st) && UniqueEntries(tasks)
    requires OneEach(Loads(Arranged(st, tasks)), plugins)
    requires t in tasks && i < |tasks[t].content| && HasCfg(st, tasks[t], i)
    ensures Defined(Loads(Arranged(st, tasks)), plugins)
    ensures var x, group := tasks[t].content[i].name, GroupKey(tasks[t], i);
            var ls := Loads(Arranged(st, tasks));
            var pairs := AllPairs(ls, plugins);
            && group in Groups(st, tasks[t])
            && g < |ls| && ls[g].task == t && ls[g].cfg == Groups(st, tasks[t])[group]
            && (exists p :: 0 <= p < |pairs| && pairs[p] == (Instance(g, 0), ls[g].cfg))
            && (forall q | 0 <= q < |pairs| && x in pairs[q].1.names :: pairs[q] == (Instance(g, 0), ls[g].cfg))
            && x in Ptr(pairs) && Ptr(pairs)[x] == Instance(g, 0)
  {
    hide NamesFree, UniqueEntries, HasCfg, GroupKey, Groups, Arranged, LoadsIn, Ascending, Loads, PairsIn, Ptr, Defined,
      RegisteredKeys;
    var ls := Loads(Arranged(st, tasks));
    var x := tasks[t].content[i].name;
    g := NamedByOneLoad(st, tasks, t, i);
    OneEachDefined(ls, plugins);
    var keys := RegisteredKeys(ls, plugins);
    AscendingWalk(keys);
    assert Key(ls[g]) in keys by { KeyRegistered(ls, plugins, g); }
    var p := LoadPaired(ls, plugins, Ascending(keys), g);
    PairsMatch(ls, plugins, Ascending(keys));
    var pairs := AllPairs(ls, plugins);
    assert Matches(ls, pairs[p]);
    forall q | 0 <= q < |pairs| && x in pairs[q].1.names ensures pairs[q] == (Instance(g, 0), ls[g].cfg) {
      assert Matches(ls, pairs[q]);
    }
    PtrHas(pairs, p, x);
  }

  lemma KeyRegistered(loads: seq<Load>, plugins: Plugins, g: nat)
    requires g < |loads| && OneEach(loads, plugins)
    ensures Key(loads[g]) in RegisteredKeys(loads, plugins)
  {
  }

  // ---------------------------------------------------------------- the loops

  function Get<V>(m: map<string, seq<V>>, key: string): seq<V> {
    if key in m then m[key] else []
  }

  lemma LoadStep(loads: seq<Load>, plugins: Plugins, l: Load, key: string)
    ensures Made(loads + [l], plugins, key) ==
            Made(loads, plugins, key) + (if Key(l) == key then Registered(|loads|, Count(plugins, l)) else [])
    ensures Configs(loads + [l], key) == Configs(loads, key) + (if Key(l) == key then [l.cfg] else [])
  {
    assert (loads + [l])[..|loads|] == loads;
  }

  lemma KeysStep(loads: seq<Load>, plugins: Plugins, l: Load)
    ensures RegisteredKeys(loads + [l], plugins) ==
            RegisteredKeys(loads, plugins) + (if Count(plugins, l) > 0 then {Key(l)} else {})
  {
    hide Count, Key;
    var more := loads + [l];
    assert forall g | 0 <= g < |loads| :: more[g] == loads[g];
    assert more[|loads|] == l;
    forall key | key in RegisteredKeys(loads, plugins) ensures key in RegisteredKeys(more, plugins) {
      var g :| 0 <= g < |loads| && Count(plugins, loads[g]) > 0 && Key(loads[g]) == key;
      assert more[g] == loads[g];
    }
  }

  lemma {:induction false} NoKeyNoneMade(loads: seq<Load>, plugins: Plugins, key: string)
    ensures key in RegisteredKeys(loads, plugins) <==> Made(loads, plugins, key) != []
  {
    if loads != [] {
      var k := |loads| - 1;
      assert loads[..k] + [loads[k]] == loads;
      NoKeyNoneMade(loads[..k], plugins, key);
      KeysStep(loads[..k], plugins, loads[k]);
    }
  }

  class ProtocolManager {
    const plugins: Plugins
    var mapProtocol: map<string, seq<Instance>>
    var mapValue: map<string, seq<Cfg>>
    var mapProtocolPtr: map<string, Instance>
    var inits: seq<Pair>                  // the calls of IProtocol::init so far
    var threads: seq<(string, seq<Info>)>  // m_vecThread: the key and what the thread is given
    var loadCount: nat                    // tells the objects of different loads apart
    ghost var loads: seq<Load>

    /** Both lists of every key are those of the loads so far. */
    ghost predicate Valid()
      reads this
    {
      && loadCount == |loads|
      && Lists(mapProtocol, mapValue, loads)
    }

    constructor (plugins: Plugins)
      ensures Valid() && this.plugins == plugins && loads == []
      ensures mapProtocolPtr == map[] && inits == [] && threads == []
    {
      this.plugins := plugins;
      mapProtocol, mapValue, mapProtocolPtr, inits, threads, loadCount, loads := map[], map[], map[], [], [], 0, [];
    }

    method RegisterProtocol(key: string, inst: Instance)
      modifies this`mapProtocol
      ensures mapProtocol == old(mapProtocol)[key := Get(old(mapProtocol), key) + [inst]]
    {
      var list := Get(mapProtocol, key);
      mapProtocol := mapProtocol[key := list + [inst]];
    }

    /** The plugin's initProtocol registers its objects. */
    method LoadProtocolLib(plugName: string, key: string)
      modifies this`mapProtocol
      ensures var c := if plugName in plugins then plugins[plugName] else 0;
              mapProtocol == if c == 0 then old(mapProtocol)
              else old(mapProtocol)[key := Get(old(mapProtocol), key) + Registered(loadCount, c)]
    {
      var c := if plugName in plugins then plugins[plugName] else 0;
      ghost var was := Get(mapProtocol, key);
      for n := 0 to c
        modifies this`mapProtocol
        invariant mapProtocol == if n == 0 then old(mapProtocol)
                                 else old(mapProtocol)[key := was + Registered(loadCount, n)]
      {
        assert Get(mapProtocol, key) == was + Registered(loadCount, n);
        Base.Assoc(was, Registered(loadCount, n), [Instance(loadCount, n)]);
        assert Registered(loadCount, n) + [Instance(loadCount, n)] == Registered(loadCount, n + 1);
        RegisterProtocol(key, Instance(loadCount, n));
      }
    }

    /** One configuration: load its plugin, then append it under the same key. */
    method CreateOne(task: string, index: nat, cfg: Cfg)
      requires Valid()
      modifies this`mapProtocol, this`mapValue, this`loadCount, this`loads
      ensures Valid() && loads == old(loads) + [Load(task, index, cfg)]
    {
      var plugName := cfg.plugName;
      LoadProtocolLib(plugName, task + plugName);
      var cfgs := Get(mapValue, task + plugName);
      mapValue := mapValue[task + plugName := cfgs + [cfg]];
      loadCount := loadCount + 1;
      ghost var l := Load(task, index, cfg);
      loads := loads + [l];
      Appended(old(mapProtocol), old(mapValue), old(loads), l, mapProtocol, mapValue);
    }

    ghost predicate Lists(mapProtocol: map<string, seq<Instance>>, mapValue: map<string, seq<Cfg>>, loads: seq<Load>)
    {
      && mapProtocol.Keys == RegisteredKeys(loads, plugins)
      && (forall key | key in mapProtocol :: mapProtocol[key] == Made(loads, plugins, key))
      && (forall key :: Configs(loads, key) == Get(mapValue, key))
    }

    lemma Appended(p: map<string, seq<Instance>>, v: map<string, seq<Cfg>>, ls: seq<Load>, l: Load,
                   p': map<string, seq<Instance>>, v': map<string, seq<Cfg>>)
      requires Lists(p, v, ls)
      requires var c := Count(plugins, l);
               p' == if c == 0 then p else p[Key(l) := Get(p, Key(l)) + Registered(|ls|, c)]
      requires v' == v[Key(l) := Get(v, Key(l)) + [l.cfg]]
      ensures Lists(p', v', ls + [l])
    {
      hide Made, Configs, RegisteredKeys, Count, Key;
      KeysStep(ls, plugins, l);
      NoKeyNoneMade(ls, plugins, Key(l));
      forall key ensures Configs(ls + [l], key) == Get(v', key) {
        LoadStep(ls, plugins, l, key);
      }
      forall key | key in p' ensures p'[key] == Made(ls + [l], plugins, key) {
        LoadStep(ls, plugins, l, key);
      }
    }

    method CreateProtocol(cfgs: map<string, seq<Cfg>>)
      requires Valid()
      modifies this`mapProtocol, this`mapValue, this`loadCount, this`loads
      ensures Valid() && loads == old(loads) + Loads(cfgs)
    {
      hide Ascending, NoDuplicates, Lists, TaskLoads;
      AscendingWalk(cfgs.Keys);
      var order := Ascending(cfgs.Keys);
      assert forall k | 0 <= k < |order| :: order[k] in order;
      assert order[..0] == [] && order[..|order|] == order;
      for k := 0 to |order|
        modifies this`mapProtocol, this`mapValue, this`loadCount, this`loads
        invariant Valid() && loads == old(loads) + LoadsIn(cfgs, order[..k])
      {
        CreateTask(order[k], cfgs[order[k]]);
        assert order[..k + 1][..k] == order[..k];
        Base.Assoc(old(loads), LoadsIn(cfgs, order[..k]), TaskLoads(order[k], cfgs[order[k]]));
      }
    }

    method CreateTask(task: string, cfgs: seq<Cfg>)
      requires Valid()
      modifies this`mapProtocol, this`mapValue, this`loadCount, this`loads
      ensures Valid() && loads == old(loads) + TaskLoads(task, cfgs)
    {
      hide Lists;
      ghost var all := TaskLoads(task, cfgs);
      for j := 0 to |cfgs|
        modifies this`mapProtocol, this`mapValue, this`loadCount, this`loads
        invariant Valid() && loads == old(loads) + all[..j]
      {
        CreateOne(task, j, cfgs[j]);
        assert all[..j + 1] == all[..j] + [all[j]];
        Base.Assoc(old(loads), all[..j], [all[j]]);
      }
      assert all[..|cfgs|] == all;
    }

    method BindNames(names: seq<string>, inst: Instance)
      modifies this`mapProtocolPtr
      ensures mapProtocolPtr == Bind(old(mapProtocolPtr), names, inst)
    {
      for j := 0 to |names|
        modifies this`mapProtocolPtr
        invariant mapProtocolPtr == Bind(old(mapProtocolPtr), names[..j], inst)
      {
        assert names[..j + 1][..j] == names[..j];
        mapProtocolPtr := mapProtocolPtr[names[j] := inst];
      }
      assert names[..|names|] == names;
    }

    /** The instances of one key; false where the vector of configurations would be read beyond its end. */
    method StartKey(made: seq<Instance>, cfgs: seq<Cfg>) returns (ok: bool, infos: seq<Info>)
      requires mapProtocolPtr == Ptr(inits)
      modifies this`mapProtocolPtr, this`inits
      ensures ok <==> |made| <= |cfgs|
      ensures ok ==> inits == old(inits) + KeyPairs(made, cfgs) && mapProtocolPtr == Ptr(inits)
      ensures ok ==> infos == InfosOf(KeyPairs(made, cfgs))
    {
      hide Ptr, Bind;
      ghost var pairs := KeyPairs(made, cfgs);
      infos := [];
      for i := 0 to |made|
        modifies this`mapProtocolPtr, this`inits
        invariant i <= |cfgs| && inits == old(inits) + pairs[..i] && mapProtocolPtr == Ptr(inits)
        invariant infos == InfosOf(pairs)[..i]
      {
        if i >= |cfgs| { return false, []; }
        infos := infos + [Info(made[i], cfgs[i].names)];
        BindNames(cfgs[i].names, made[i]);
        PtrSnoc(inits, (made[i], cfgs[i]));
        inits := inits + [(made[i], cfgs[i])];
        assert pairs[..i + 1] == pairs[..i] + [pairs[i]];
        Base.Assoc(old(inits), pairs[..i], [pairs[i]]);
      }
      ok := true;
      assert pairs[..|made|] == pairs;
    }

    method Start() returns (ok: bool)
      requires Valid() && inits == [] && mapProtocolPtr == map[] && threads == []
      modifies this`mapProtocolPtr, this`inits, this`threads
      ensures ok <==> Defined(loads, plugins)
      ensures ok ==> inits == AllPairs(loads, plugins) && mapProtocolPtr == Ptr(AllPairs(loads, plugins))
      ensures ok ==> threads == ThreadsIn(loads, plugins, Ascending(RegisteredKeys(loads, plugins)))
    {
      hide Ascending, NoDuplicates, Made, Configs, RegisteredKeys, KeyPairs, InfosOf, PairsIn, Ptr;
      StartNothing(loads, plugins);
      AscendingWalk(mapProtocol.Keys);
      var order := Ascending(mapProtocol.Keys);
      ghost var all := ThreadsIn(loads, plugins, order);
      assert order[..0] == [] && order[..|order|] == order && all[..|order|] == all;
      for k := 0 to |order|
        modifies this`mapProtocolPtr, this`inits, this`threads
        invariant inits == PairsIn(loads, plugins, order[..k]) && mapProtocolPtr == Ptr(inits) && threads == all[..k]
        invariant forall i | 0 <= i < k :: |Made(loads, plugins, order[i])| <= |Configs(loads, order[i])|
      {
        var key := order[k];
        assert key in mapProtocol.Keys;
        assert Configs(loads, key) == Get(mapValue, key);
        var infos;
        ok, infos := StartKey(mapProtocol[key], Get(mapValue, key));
        if !ok { return; }
        threads := threads + [(key, infos)];
        assert all[..k + 1] == all[..k] + [all[k]];
        PairsNext(loads, plugins, order, k);
      }
      ok := true;
      forall key ensures |Made(loads, plugins, key)| <= |Configs(loads, key)| {
        NoKeyNoneMade(loads, plugins, key);
      }
    }
  }
}
