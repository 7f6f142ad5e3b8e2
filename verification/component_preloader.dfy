/** The component preloader (`ComponentPreloader`): a queue of components to pre-render,
    kept in descending priority, and the scheduling flag. Pre-rendering itself does nothing
    observable; the idle-callback scheduling is represented by the runs the caller performs. */
module ComponentPreloader {
  import opened Json
  import opened Sorting

  datatype PreloadConfig = PreloadConfig(componentName: string, propsVariations: seq<Json>, priority: int)

  datatype State = State(queue: seq<PreloadConfig>, preloading: bool)

  /** The answer of `startPreloading` and of one queue run: the new state and whether a
      (further) run of the queue was scheduled. */
  datatype Started = Started(state: State, scheduled: bool)

  datatype Step = Step(state: State, processed: seq<PreloadConfig>, scheduled: bool)

  /** The sort key of `(a, b) => b.priority - a.priority`: highest priority first. */
  function ByPriority(c: PreloadConfig): Rank {
    Rank(c.priority, 0)
  }

  /** `registerForPreload(config)`: append, then sort stably by descending priority. */
  function Register(st: State, config: PreloadConfig): (r: State)
    ensures SortedDesc(r.queue, ByPriority)
    ensures multiset(r.queue) == multiset(st.queue) + multiset{config}
    ensures r.preloading == st.preloading
  {
    SortSorted(st.queue + [config], ByPriority);
    st.(queue := Sort(st.queue + [config], ByPriority))
  }

  /** On a sorted queue, registering places the new component after every component of
      equal or higher priority, so equal priorities keep registration order. */
  lemma RegisterInserts(st: State, config: PreloadConfig)
    requires SortedDesc(st.queue, ByPriority)
    ensures Register(st, config).queue == Insert(st.queue, config, ByPriority)
    ensures forall k ::
      WithRank(Register(st, config).queue, ByPriority, k)
        == WithRank(st.queue, ByPriority, k) + (if ByPriority(config) == k then [config] else [])
  {
    SortAppendSorted(st.queue, config, ByPriority);
    forall k ensures WithRank(Register(st, config).queue, ByPriority, k)
      == WithRank(st.queue, ByPriority, k) + (if ByPriority(config) == k then [config] else [])
    {
      InsertWithRank(st.queue, config, ByPriority, k);
    }
  }

  /** Registering `configs` one after the other, starting from `st`. */
  function RegisterAll(st: State, configs: seq<PreloadConfig>): State {
    if |configs| == 0 then st
    else Register(RegisterAll(st, configs[..|configs| - 1]), configs[|configs| - 1])
  }

  /** From an empty queue, a series of registrations yields the stable descending sort of the
      registration order. */
  lemma {:induction false} RegisterAllSorts(st: State, configs: seq<PreloadConfig>)
    requires st.queue == []
    ensures RegisterAll(st, configs).queue == Sort(configs, ByPriority)
  {
    if |configs| > 0 {
      var init, last := configs[..|configs| - 1], configs[|configs| - 1];
      RegisterAllSorts(st, init);
      SortSorted(init, ByPriority);
      SortAppendSorted(Sort(init, ByPriority), last, ByPriority);
    }
  }

  /** `startPreloading()`: nothing while preloading or with an empty queue; otherwise one run of
      the queue is scheduled and the flag is already cleared when the call returns. */
  function StartPreloading(st: State): (r: Started)
    ensures st.preloading || |st.queue| == 0 ==> r == Started(st, false)
    ensures !st.preloading && |st.queue| > 0 ==> r.scheduled && !r.state.preloading && r.state.queue == st.queue
  {
    if st.preloading || |st.queue| == 0 then Started(st, false)
    else Started(st.(preloading := false), true)
  }

  /** One `processPreloadQueue()` run: the head is taken off and pre-rendered, and another run
      is scheduled while components remain. An empty queue is left alone. */
  function ProcessOne(st: State): (r: Step)
    ensures |st.queue| == 0 ==> r == Step(st, [], false)
    ensures |st.queue| > 0 ==> r.processed == [st.queue[0]] && r.state.queue == st.queue[1..]
    ensures r.state.preloading == st.preloading
    ensures r.scheduled <==> |r.state.queue| > 0
  {
    if |st.queue| == 0 then Step(st, [], false)
    else Step(st.(queue := st.queue[1..]), [st.queue[0]], |st.queue| > 1)
  }

  /** Runs of the queue, each scheduled by the previous one, until nothing is scheduled. */
  function Drain(st: State): (r: Step)
    ensures r.state.queue == [] && !r.scheduled
    decreases |st.queue|
  {
    var step := ProcessOne(st);
    if step.scheduled then
      var rest := Drain(step.state);
      Step(rest.state, step.processed + rest.processed, false)
    else Step(step.state, step.processed, false)
  }

  /** The scheduled runs pre-render every queued component exactly once, in queue order, so
      from a sorted queue in non-increasing priority. */
  lemma DrainProcessesQueue(st: State)
    ensures Drain(st).processed == st.queue
    ensures SortedDesc(st.queue, ByPriority) ==> SortedDesc(Drain(st).processed, ByPriority)
  {
    DrainTakesQueue(st);
  }

  lemma {:induction false} DrainTakesQueue(st: State)
    ensures Drain(st).processed == st.queue
    decreases |st.queue|
  {
    var step := ProcessOne(st);
    if step.scheduled {
      DrainTakesQueue(step.state);
      assert Drain(st).processed == step.processed + Drain(step.state).processed;
      assert st.queue == [st.queue[0]] + st.queue[1..];
    } else if |st.queue| > 0 {
      assert st.queue == [st.queue[0]];
    }
  }

  /** `preloadCommonComponents()`'s three registrations. */
  function CommonComponents(): seq<PreloadConfig> {
    [
      PreloadConfig("InfoCard", [TitledEmpty("Identifikation", "data"), TitledEmpty("Wirkstoff", "data"),
        TitledEmpty("Haltbarkeit", "data")], 10),
      PreloadConfig("Timeline", [TitledEmpty("Lieferkette", "events")], 8),
      PreloadConfig("DocumentCard", [TitledEmpty("Dokumente", "documents")], 6)
    ]
  }

  /** The props `{ title, <list>: [] }`. */
  function TitledEmpty(title: string, list: string): Json {
    JObj([Field("title", JStr(title)), Field(list, JArr([]))])
  }

  /** Components registered in priority order stay in that order. */
  lemma RegisteredInOrderStays(st: State, configs: seq<PreloadConfig>)
    requires st.queue == [] && SortedDesc(configs, ByPriority)
    ensures RegisterAll(st, configs).queue == configs
  {
    RegisterAllSorts(st, configs);
    SortOfSorted(configs, ByPriority);
  }

  lemma CommonComponentsSorted()
    ensures SortedDesc(CommonComponents(), ByPriority)
  {
    var cs := CommonComponents();
    assert |cs| == 3 && cs[0].priority == 10 && cs[1].priority == 8 && cs[2].priority == 6;
  }
}
