/**
 * src/plugin.rs: plugin metadata and its builders, and the plugin registry
 * with its filtered registration and ordered lifecycle runs. A plugin is its
 * metadata plus the way it answers each lifecycle call.
 */
module Plugin {
  import opened Wrappers
  import opened Lifecycle

  datatype PluginMetadata = PluginMetadata(
    name: string,
    description: string,
    version: string,
    enabledByDefault: bool,
    author: Option<string>,
    properties: map<string, string>)

  /** `PluginMetadata::new`: enabled by default, no author, no properties. */
  function NewMetadata(name: string, description: string, version: string): (m: PluginMetadata)
    ensures m.name == name && m.description == description && m.version == version
    ensures m.enabledByDefault && m.author.None? && m.properties == map[]
  {
    PluginMetadata(name, description, version, true, None, map[])
  }

  function EnabledByDefault(m: PluginMetadata, enabled: bool): PluginMetadata
  {
    m.(enabledByDefault := enabled)
  }

  function Author(m: PluginMetadata, author: string): PluginMetadata
  {
    m.(author := Some(author))
  }

  function WithProperty(m: PluginMetadata, key: string, value: string): PluginMetadata
  {
    m.(properties := m.properties[key := value])
  }

  /** Each metadata builder touches its own field only, so the builders commute; a property write keeps the other keys. */
  lemma MetadataBuildersIndependent(m: PluginMetadata, e: bool, a: string, k: string, v: string)
    ensures EnabledByDefault(Author(m, a), e) == Author(EnabledByDefault(m, e), a)
    ensures EnabledByDefault(WithProperty(m, k, v), e) == WithProperty(EnabledByDefault(m, e), k, v)
    ensures Author(WithProperty(m, k, v), a) == WithProperty(Author(m, a), k, v)
    ensures EnabledByDefault(m, e).enabledByDefault == e && Author(m, a).author == Some(a)
    ensures WithProperty(m, k, v).properties[k] == v
    ensures forall k' :: k' in m.properties && k' != k ==> WithProperty(m, k, v).properties[k'] == m.properties[k']
    ensures WithProperty(m, k, v).properties.Keys == m.properties.Keys + {k}
    ensures WithProperty(m, k, v).name == m.name && Author(m, a).name == m.name && EnabledByDefault(m, e).name == m.name
  {
  }

  /** `is_enabled`: a plugin is enabled when its metadata says it is enabled by default. */
  predicate IsEnabled(m: PluginMetadata)
  {
    m.enabledByDefault
  }

  /** A registered plugin. */
  datatype PluginEntry = PluginEntry(metadata: PluginMetadata, behaviour: Behaviour)

  /** The plugins whose metadata passes the filter, in their original order. */
  function Keep(ps: seq<PluginEntry>, filter: PluginMetadata -> bool): (r: seq<PluginEntry>)
    ensures |r| <= |ps|
    ensures forall p :: p in r <==> p in ps && filter(p.metadata)
  {
    if ps == [] then []
    else if filter(ps[0].metadata) then [ps[0]] + Keep(ps[1..], filter)
    else Keep(ps[1..], filter)
  }

  /** Filtering distributes over concatenation, so order is kept. */
  lemma {:induction false} KeepAppend(a: seq<PluginEntry>, b: seq<PluginEntry>, filter: PluginMetadata -> bool)
    ensures Keep(a + b, filter) == Keep(a, filter) + Keep(b, filter)
    decreases |a|
  {
    if a == [] {
      assert a + b == b;
    } else {
      assert (a + b)[1..] == a[1..] + b;
      KeepAppend(a[1..], b, filter);
    }
  }

  /** A filter that passes everything keeps the list as it is, and one that passes nothing keeps nothing. */
  lemma {:induction false} KeepExtremes(ps: seq<PluginEntry>, filter: PluginMetadata -> bool)
    ensures (forall p :: p in ps ==> filter(p.metadata)) ==> Keep(ps, filter) == ps
    ensures (forall p :: p in ps ==> !filter(p.metadata)) ==> Keep(ps, filter) == []
    decreases |ps|
  {
    if ps != [] {
      KeepExtremes(ps[1..], filter);
      assert forall p :: p in ps[1..] ==> p in ps;
    }
  }

  function PluginAnswers(ps: seq<PluginEntry>, h: Hook): seq<Outcome>
  {
    Lifecycle.Answers(ps, (p: PluginEntry) => p.behaviour, h)
  }

  class PluginRegistry {
    var plugins: seq<PluginEntry>
    /** The lifecycle calls made on the plugins so far, oldest first. */
    var calls: seq<Call>

    constructor ()
      ensures plugins == [] && calls == []
    {
      plugins := [];
      calls := [];
    }

    /** `with_enabled_plugins`. */
    constructor WithEnabledPlugins(ps: seq<PluginEntry>)
      ensures plugins == Keep(ps, IsEnabled) && calls == []
    {
      plugins := [];
      calls := [];
      new;
      RegisterEnabled(ps);
    }

    /** `with_all_plugins`. */
    constructor WithAllPlugins(ps: seq<PluginEntry>)
      ensures plugins == ps && calls == []
    {
      plugins := [];
      calls := [];
      new;
      RegisterAll(ps);
    }

    method Register(p: PluginEntry)
      modifies this
      ensures plugins == old(plugins) + [p] && calls == old(calls)
    {
      plugins := plugins + [p];
    }

    method RegisterAll(ps: seq<PluginEntry>)
      modifies this
      ensures plugins == old(plugins) + ps && calls == old(calls)
    {
      for i := 0 to |ps|
        invariant plugins == old(plugins) + ps[..i] && calls == old(calls)
      {
        assert ps[..i + 1] == ps[..i] + [ps[i]];
        plugins := plugins + [ps[i]];
      }
      assert ps[..|ps|] == ps;
    }

    /** `register_filtered`: the plugins passing the filter are appended, in their order. */
    method RegisterFiltered(ps: seq<PluginEntry>, filter: PluginMetadata -> bool)
      modifies this
      ensures plugins == old(plugins) + Keep(ps, filter) && calls == old(calls)
    {
      for i := 0 to |ps|
        invariant plugins == old(plugins) + Keep(ps[..i], filter) && calls == old(calls)
      {
        assert ps[..i + 1] == ps[..i] + [ps[i]];
        KeepAppend(ps[..i], [ps[i]], filter);
        if filter(ps[i].metadata) {
          plugins := plugins + [ps[i]];
        }
      }
      assert ps[..|ps|] == ps;
    }

    /** `register_enabled`: the plugins enabled by default. */
    method RegisterEnabled(ps: seq<PluginEntry>)
      modifies this
      ensures plugins == old(plugins) + Keep(ps, IsEnabled) && calls == old(calls)
    {
      RegisterFiltered(ps, IsEnabled);
    }

    /** `register_by_names`: the plugins whose name is listed. */
    method RegisterByNames(ps: seq<PluginEntry>, names: seq<string>)
      modifies this
      ensures plugins == old(plugins) + Keep(ps, (m: PluginMetadata) => m.name in names) && calls == old(calls)
    {
      RegisterFiltered(ps, (m: PluginMetadata) => m.name in names);
    }

    /** Calls the hook on each plugin from the first, stopping after the first error. */
    method RunForward(h: Hook) returns (r: Outcome)
      modifies this
      ensures plugins == old(plugins)
      ensures calls == old(calls) + Ascending(h, Reached(PluginAnswers(plugins, h)))
      ensures r == Verdict(PluginAnswers(plugins, h))
    {
      ghost var answers := PluginAnswers(plugins, h);
      var i := 0;
      while i < |plugins|
        invariant 0 <= i <= |plugins| && plugins == old(plugins)
        invariant forall j :: 0 <= j < i ==> answers[j].Ok?
        invariant calls == old(calls) + Ascending(h, i)
      {
        var a := Answer(plugins[i].behaviour, h);
        calls := calls + [Call(i, h)];
        assert Ascending(h, i + 1) == Ascending(h, i) + [Call(i, h)];
        if a.Err? {
          FirstErrAt(answers, i);
          return a;
        }
        i := i + 1;
      }
      FirstErrAt(answers, |plugins|);
      r := Ok(Unit);
    }

    /** Calls the hook on each plugin from the last, stopping after the first error. */
    method RunBackward(h: Hook) returns (r: Outcome)
      modifies this
      ensures plugins == old(plugins)
      ensures calls == old(calls) + Descending(h, |plugins|, Reached(Reverse(PluginAnswers(plugins, h))))
      ensures r == Verdict(Reverse(PluginAnswers(plugins, h)))
    {
      ghost var answers := Reverse(PluginAnswers(plugins, h));
      var i := 0;
      while i < |plugins|
        invariant 0 <= i <= |plugins| && plugins == old(plugins)
        invariant forall j :: 0 <= j < i ==> answers[j].Ok?
        invariant calls == old(calls) + Descending(h, |plugins|, i)
      {
        var a := Answer(plugins[|plugins| - 1 - i].behaviour, h);
        calls := calls + [Call(|plugins| - 1 - i, h)];
        assert Descending(h, |plugins|, i + 1) == Descending(h, |plugins|, i) + [Call(|plugins| - 1 - i, h)];
        if a.Err? {
          FirstErrAt(answers, i);
          return a;
        }
        i := i + 1;
      }
      FirstErrAt(answers, |plugins|);
      r := Ok(Unit);
    }

    /** `init_all`: plugins initialised in order; the first error ends the run and is returned. */
    method InitAll() returns (r: Outcome)
      modifies this
      ensures plugins == old(plugins)
      ensures calls == old(calls) + Ascending(Init, Reached(PluginAnswers(plugins, Init)))
      ensures r == Verdict(PluginAnswers(plugins, Init))
    {
      r := RunForward(Init);
    }

    /** `start_all`: plugins started in order; the first error ends the run and is returned. */
    method StartAll() returns (r: Outcome)
      modifies this
      ensures plugins == old(plugins)
      ensures calls == old(calls) + Ascending(Start, Reached(PluginAnswers(plugins, Start)))
      ensures r == Verdict(PluginAnswers(plugins, Start))
    {
      r := RunForward(Start);
    }

    /** `stop_all`: plugins stopped from the last registered; the first error ends the run and is returned. */
    method StopAll() returns (r: Outcome)
      modifies this
      ensures plugins == old(plugins)
      ensures calls == old(calls) + Descending(Stop, |plugins|, Reached(Reverse(PluginAnswers(plugins, Stop))))
      ensures r == Verdict(Reverse(PluginAnswers(plugins, Stop)))
    {
      r := RunBackward(Stop);
    }

    /** `startup`: `init_all`, then `start_all` only if every plugin initialised. */
    method Startup() returns (r: Outcome)
      modifies this
      ensures plugins == old(plugins)
      ensures Verdict(PluginAnswers(plugins, Init)).Err? ==>
                r == Verdict(PluginAnswers(plugins, Init)) && calls == old(calls) + Ascending(Init, Reached(PluginAnswers(plugins, Init)))
      ensures Verdict(PluginAnswers(plugins, Init)).Ok? ==>
                && r == Verdict(PluginAnswers(plugins, Start))
                && calls == old(calls) + Ascending(Init, |plugins|) + Ascending(Start, Reached(PluginAnswers(plugins, Start)))
    {
      r := InitAll();
      if r.Err? {
        return;
      }
      r := StartAll();
    }

    /** `shutdown`: `stop_all`. */
    method Shutdown() returns (r: Outcome)
      modifies this
      ensures plugins == old(plugins)
      ensures calls == old(calls) + Descending(Stop, |plugins|, Reached(Reverse(PluginAnswers(plugins, Stop))))
      ensures r == Verdict(Reverse(PluginAnswers(plugins, Stop)))
    {
      r := StopAll();
    }

    /** `setup_messaging`: every plugin is set up in order; a plugin's error is logged and does not stop the others. */
    method SetupMessaging() returns (r: Outcome)
      modifies this
      ensures plugins == old(plugins)
      ensures calls == old(calls) + Ascending(Hook.SetupMessaging, |plugins|)
      ensures r == Ok(Unit)
    {
      for i := 0 to |plugins|
        invariant plugins == old(plugins) && calls == old(calls) + Ascending(Hook.SetupMessaging, i)
      {
        var _ := Answer(plugins[i].behaviour, Hook.SetupMessaging);
        calls := calls + [Call(i, Hook.SetupMessaging)];
        assert Ascending(Hook.SetupMessaging, i + 1) == Ascending(Hook.SetupMessaging, i) + [Call(i, Hook.SetupMessaging)];
      }
      r := Ok(Unit);
    }
  }

  /** The run order ends at the failing plugin: after it nothing is called, and every plugin before it succeeded. */
  lemma ForwardRunStopsAtFailure(ps: seq<PluginEntry>, h: Hook, k: nat)
    requires k < |ps| && Answer(ps[k].behaviour, h).Err?
    requires forall j :: 0 <= j < k ==> Answer(ps[j].behaviour, h).Ok?
    ensures Reached(PluginAnswers(ps, h)) == k + 1
    ensures Verdict(PluginAnswers(ps, h)) == Answer(ps[k].behaviour, h)
  {
    FirstErrAt(PluginAnswers(ps, h), k);
  }

  /** When every plugin stops cleanly, `stop_all` calls each one exactly once, last registered first. */
  lemma BackwardRunVisitsAll(ps: seq<PluginEntry>)
    requires forall j :: 0 <= j < |ps| ==> Answer(ps[j].behaviour, Stop).Ok?
    ensures Reached(Reverse(PluginAnswers(ps, Stop))) == |ps|
    ensures Verdict(Reverse(PluginAnswers(ps, Stop))) == Ok(Unit)
    ensures forall i :: 0 <= i < |ps| ==> Descending(Stop, |ps|, |ps|)[i] == Call(|ps| - 1 - i, Stop)
  {
    FirstErrAt(Reverse(PluginAnswers(ps, Stop)), |ps|);
  }
}
