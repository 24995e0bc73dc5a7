/** Radio reconfiguration of the two-way ranging node: a commit is applied at once or at the next free slot, and the
    receive timeout is computed once and kept. */
module DeferredConfig {
  import opened Bytes
  import opened Options

  /** A radio configuration: its frame filter, which decides on automatic acknowledgement, and everything else. */
  datatype Config = Config(frameFilter: bool, rest: int)

  /** Receive timeout for a configuration: frame duration plus the ranging delay, in 16 bits. */
  type Timeouts = Config -> U16

  /** `config` is the device's committed configuration, `radio` what the hardware was last set to, `autoAck` how the
      hardware was last told to acknowledge. */
  datatype State = State(config: Config, radio: Config, autoAck: Option<bool>, pending: bool, timeout: U16)

  /** A slot's listen, with the timeout it uses and the configuration the hardware has. */
  datatype Listen = Listen(timeout: U16, radio: Config)

  /** `waiting`: the semaphore count is zero, the device is waiting for its clock master. */
  datatype Event = Commit(config: Config, waiting: bool) | Slot(waiting: bool)

  function Applied(s: State): (t: State) {
    s.(radio := s.config, autoAck := Some(s.config.frameFilter))
  }

  function CommitStep(s: State, c: Config, waiting: bool): (t: State) {
    if waiting then Applied(s.(config := c)) else s.(config := c, pending := true)
  }

  function SlotStep(budget: Timeouts, s: State, waiting: bool): (r: (State, Option<Listen>)) {
    if waiting then (s, None)
    else if s.pending then (Applied(s).(pending := false, timeout := 0), None)
    else
      var t := if s.timeout == 0 then s.(timeout := budget(s.config)) else s;
      (t, Some(Listen(t.timeout, t.radio)))
  }

  function Step(budget: Timeouts, s: State, e: Event): (t: State) {
    match e
    case Commit(c, waiting) => CommitStep(s, c, waiting)
    case Slot(waiting) => SlotStep(budget, s, waiting).0
  }

  class TwrNode {
    const budget: Timeouts
    var config: Config
    var radio: Config
    var autoAck: Option<bool>
    var uwbConfigUpdated: bool
    var timeout: U16

    function Abs(): (s: State)
      reads this
    {
      State(config, radio, autoAck, uwbConfigUpdated, timeout)
    }

    constructor (budget: Timeouts, c: Config)
      ensures this.budget == budget && Abs() == State(c, c, None, false, 0)
    {
      this.budget, config, radio, autoAck := budget, c, c, None;
      uwbConfigUpdated, timeout := false, 0;
    }

    method Configure()
      modifies `radio, `autoAck
      ensures Abs() == Applied(old(Abs()))
    {
      radio := config;
      if config.frameFilter {
        autoAck := Some(true);
      } else {
        autoAck := Some(false);
      }
    }

    method ConfigUpdated(c: Config, waiting: bool)
      modifies this
      ensures Abs() == Step(budget, old(Abs()), Commit(c, waiting))
    {
      config := c;
      if waiting {
        Configure();
        return;
      }
      uwbConfigUpdated := true;
    }

    method SlotCb(waiting: bool) returns (listen: Option<Listen>)
      modifies this
      ensures (Abs(), listen) == SlotStep(budget, old(Abs()), waiting)
    {
      if waiting {
        return None;
      }
      if uwbConfigUpdated {
        Configure();
        uwbConfigUpdated := false;
        timeout := 0;
        return None;
      }
      if timeout == 0 {
        timeout := budget(config);
      }
      return Some(Listen(timeout, radio));
    }
  }

  /** A commit goes to the radio at once only while the device waits for its clock; otherwise it is only remembered. */
  lemma CommitExact(budget: Timeouts, s: State, c: Config, waiting: bool)
    ensures Step(budget, s, Commit(c, waiting)) ==
      if waiting then s.(config := c, radio := c, autoAck := Some(c.frameFilter)) else s.(config := c, pending := true)
  {
  }

  /** A waiting slot does nothing at all; a free one either applies what is pending, forgets the timeout and does not
      listen, or listens with the kept timeout, which it computes if there is none. */
  lemma SlotExact(budget: Timeouts, s: State, waiting: bool)
    ensures SlotStep(budget, s, waiting) ==
      if waiting then (s, None)
      else if s.pending then
        (s.(radio := s.config, autoAck := Some(s.config.frameFilter), pending := false, timeout := 0), None)
      else
        var t := if s.timeout == 0 then budget(s.config) else s.timeout;
        (s.(timeout := t), Some(Listen(t, s.radio)))
  {
  }

  // ---- runs ----

  function Run(budget: Timeouts, s: State, es: seq<Event>): (t: State)
    decreases |es|
  {
    if es == [] then s else Run(budget, Step(budget, s, es[0]), es[1..])
  }

  /** The configuration of the last commit of a run. */
  function Committed(c: Config, es: seq<Event>): (d: Config)
    decreases |es|
  {
    if es == [] then c
    else Committed(if es[0].Commit? then es[0].config else c, es[1..])
  }

  /** The hardware has the committed configuration and acknowledges accordingly, or the next free slot will see to
      it. */
  predicate InStep(s: State) {
    s.pending || (s.radio == s.config && (s.autoAck == None || s.autoAck == Some(s.config.frameFilter)))
  }

  lemma {:induction false} RunInStep(budget: Timeouts, s: State, es: seq<Event>)
    requires InStep(s)
    ensures InStep(Run(budget, s, es)) && Run(budget, s, es).config == Committed(s.config, es)
    decreases |es|
  {
    if es != [] {
      RunInStep(budget, Step(budget, s, es[0]), es[1..]);
    }
  }

  /** Every listen of every run uses the last committed configuration. */
  lemma ListenUsesCommitted(budget: Timeouts, s: State, es: seq<Event>, waiting: bool)
    requires InStep(s)
    ensures var listen := SlotStep(budget, Run(budget, s, es), waiting).1;
      listen.Some? ==> listen.value.radio == Committed(s.config, es)
  {
    RunInStep(budget, s, es);
  }

  /** The kept timeout is the one of the committed configuration, or it will be dropped before it is used. */
  predicate CacheRight(budget: Timeouts, s: State) {
    s.pending || s.timeout == 0 || s.timeout == budget(s.config)
  }

  /** A listen uses the timeout that would be computed afresh exactly when the cache is right. */
  lemma ListenTimeout(budget: Timeouts, s: State)
    requires SlotStep(budget, s, false).1.Some?
    ensures SlotStep(budget, s, false).1.value.timeout == budget(s.config) <==> CacheRight(budget, s)
  {
  }

  /** What a commit must not be for the cache to stay right: applied at once over a kept timeout of another length. */
  predicate Harmless(budget: Timeouts, s: State, e: Event) {
    e.Commit? && e.waiting ==> s.pending || s.timeout == 0 || s.timeout == budget(e.config)
  }

  lemma CacheStep(budget: Timeouts, s: State, e: Event)
    requires CacheRight(budget, s)
    ensures CacheRight(budget, Step(budget, s, e)) <==> Harmless(budget, s, e)
  {
  }

  predicate AllHarmless(budget: Timeouts, s: State, es: seq<Event>)
    decreases |es|
  {
    es == [] || (Harmless(budget, s, es[0]) && AllHarmless(budget, Step(budget, s, es[0]), es[1..]))
  }

  /** The cache is right after every prefix of a run exactly when every commit of the run is harmless. */
  ghost predicate AlwaysRight(budget: Timeouts, s: State, es: seq<Event>) {
    forall k :: 0 <= k <= |es| ==> CacheRight(budget, Run(budget, s, es[..k]))
  }

  lemma AlwaysRightStep(budget: Timeouts, s: State, es: seq<Event>)
    requires es != []
    ensures AlwaysRight(budget, s, es)
       <==> CacheRight(budget, s) && AlwaysRight(budget, Step(budget, s, es[0]), es[1..])
  {
    var t := Step(budget, s, es[0]);
    forall k | 0 <= k <= |es| - 1 ensures Run(budget, s, es[..k + 1]) == Run(budget, t, es[1..][..k]) {
      assert es[..k + 1][1..] == es[1..][..k];
    }
    if AlwaysRight(budget, s, es) {
      assert Run(budget, s, es[..0]) == s;
      forall k | 0 <= k <= |es[1..]| ensures CacheRight(budget, Run(budget, t, es[1..][..k])) {
        assert CacheRight(budget, Run(budget, s, es[..k + 1]));
      }
    }
    if CacheRight(budget, s) && AlwaysRight(budget, t, es[1..]) {
      forall k | 0 <= k <= |es| ensures CacheRight(budget, Run(budget, s, es[..k])) {
        if k > 0 {
          assert CacheRight(budget, Run(budget, t, es[1..][..k - 1]));
        }
      }
    }
  }

  lemma {:induction false} CacheRightIffHarmless(budget: Timeouts, s: State, es: seq<Event>)
    requires CacheRight(budget, s)
    ensures AlwaysRight(budget, s, es) <==> AllHarmless(budget, s, es)
    decreases |es|
  {
    if es == [] {
      assert es[..0] == [];
    } else {
      AlwaysRightStep(budget, s, es);
      CacheStep(budget, s, es[0]);
      if Harmless(budget, s, es[0]) {
        CacheRightIffHarmless(budget, Step(budget, s, es[0]), es[1..]);
      } else {
        assert Run(budget, Step(budget, s, es[0]), es[1..][..0]) == Step(budget, s, es[0]);
      }
    }
  }

  // ---- when the listens of a run are right ----

  /** What the events of a run alone tell: the last committed configuration, whether it waits to be applied, and the
      configuration that the kept timeout was computed for. */
  datatype History = History(config: Config, pending: bool, keptFor: Option<Config>)

  /** A timeout is kept from a listen to the next deferred application; a timeout of zero counts as none. */
  function Remember(budget: Timeouts, h: History, e: Event): (g: History) {
    match e
    case Commit(c, waiting) => h.(config := c, pending := h.pending || !waiting)
    case Slot(waiting) =>
      if waiting then h
      else if h.pending then h.(pending := false, keptFor := None)
      else if h.keptFor == None && budget(h.config) != 0 then h.(keptFor := Some(h.config))
      else h
  }

  predicate Listens(h: History, e: Event) {
    e == Slot(false) && !h.pending
  }

  /** Whenever the run listens with a kept timeout, the committed configuration has the same timeout as the one it was
      computed for. */
  predicate SameBudgets(budget: Timeouts, h: History, es: seq<Event>)
    decreases |es|
  {
    es == [] ||
    (&& (Listens(h, es[0]) && h.keptFor.Some? ==> budget(h.keptFor.value) == budget(h.config))
     && SameBudgets(budget, Remember(budget, h, es[0]), es[1..]))
  }

  /** Every listen of the run uses the timeout that a fresh computation for the last commit would give. */
  predicate AllFresh(budget: Timeouts, s: State, es: seq<Event>)
    decreases |es|
  {
    es == [] ||
    (&& (es[0].Slot? ==>
           var listen := SlotStep(budget, s, es[0].waiting).1;
           listen.Some? ==> listen.value.timeout == budget(s.config))
     && AllFresh(budget, Step(budget, s, es[0]), es[1..]))
  }

  predicate Tells(budget: Timeouts, h: History, s: State) {
    && h.config == s.config && h.pending == s.pending
    && s.timeout == (if h.keptFor.Some? then budget(h.keptFor.value) else 0)
    && (h.keptFor.Some? ==> budget(h.keptFor.value) != 0)
  }

  lemma {:induction false} FreshIff(budget: Timeouts, h: History, s: State, es: seq<Event>)
    requires Tells(budget, h, s)
    ensures AllFresh(budget, s, es) <==> SameBudgets(budget, h, es)
    decreases |es|
  {
    if es != [] {
      FreshIff(budget, Remember(budget, h, es[0]), Step(budget, s, es[0]), es[1..]);
    }
  }

  /** From power-up every listen of a run is right if and only if no listen meets a kept timeout of another length. */
  lemma ListensFreshIff(budget: Timeouts, c: Config, es: seq<Event>)
    ensures AllFresh(budget, State(c, c, None, false, 0), es) <==> SameBudgets(budget, History(c, false, None), es)
  {
    FreshIff(budget, History(c, false, None), State(c, c, None, false, 0), es);
  }

  /** A stale timeout in between need not reach a listen: here it is dropped before the next one. */
  lemma StaleButUnseen(budget: Timeouts, a: Config, b: Config, c: Config)
    requires budget(a) != 0 && budget(a) != budget(b)
    ensures var s := State(a, a, None, false, 0);
      var es := [Slot(false), Commit(b, true), Commit(c, false), Slot(false), Slot(false)];
      AllFresh(budget, s, es) && !AllHarmless(budget, s, es)
  {
    var s0 := State(a, a, None, false, 0);
    var es := [Slot(false), Commit(b, true), Commit(c, false), Slot(false), Slot(false)];
    var s1 := Step(budget, s0, es[0]);
    var s2 := Step(budget, s1, es[1]);
    var s3 := Step(budget, s2, es[2]);
    var s4 := Step(budget, s3, es[3]);
    var s5 := Step(budget, s4, es[4]);
    var es1, es2, es3, es4 := es[1..], es[2..], es[3..], es[4..];
    assert es1[1..] == es2 && es2[1..] == es3 && es3[1..] == es4 && es4[1..] == [];
    assert AllFresh(budget, s5, []);
    assert AllFresh(budget, s4, es4);
    assert AllFresh(budget, s3, es3);
    assert AllFresh(budget, s2, es2);
    assert AllFresh(budget, s1, es1);
    assert !Harmless(budget, s1, es1[0]);
    assert !AllHarmless(budget, s1, es1);
  }

  /** No commit takes the immediate path once a timeout is kept. */
  predicate NoLateImmediate(budget: Timeouts, s: State, es: seq<Event>)
    decreases |es|
  {
    es == [] ||
    ((es[0].Commit? && es[0].waiting ==> s.timeout == 0) && NoLateImmediate(budget, Step(budget, s, es[0]), es[1..]))
  }

  /** On runs without such commits every listen uses a timeout equal to a fresh computation for the last commit. */
  lemma {:induction false} FreshTimeouts(budget: Timeouts, s: State, es: seq<Event>, waiting: bool)
    requires CacheRight(budget, s) && InStep(s) && NoLateImmediate(budget, s, es)
    ensures CacheRight(budget, Run(budget, s, es))
    ensures var listen := SlotStep(budget, Run(budget, s, es), waiting).1;
      listen.Some? ==> listen.value.timeout == budget(Committed(s.config, es))
    decreases |es|
  {
    if es != [] {
      CacheStep(budget, s, es[0]);
      FreshTimeouts(budget, Step(budget, s, es[0]), es[1..], waiting);
    }
  }

  /** The immediate path does leave a stale timeout behind: a listen, a commit while waiting, and the next listen runs
      with the timeout of the configuration before. */
  lemma ImmediatePathIsStale(budget: Timeouts, a: Config, b: Config)
    requires budget(a) != 0 && budget(a) != budget(b)
    ensures var s := Run(budget, State(a, a, None, false, 0), [Slot(false), Commit(b, true)]);
      SlotStep(budget, s, false).1 == Some(Listen(budget(a), b))
  {
    var s0 := State(a, a, None, false, 0);
    var es := [Slot(false), Commit(b, true)];
    var s1 := Step(budget, s0, Slot(false));
    var s2 := Step(budget, s1, Commit(b, true));
    assert es[1..] == [Commit(b, true)] && es[1..][1..] == [];
    assert Run(budget, s2, []) == s2;
    assert Run(budget, s1, es[1..]) == s2;
  }

  function Waits(n: nat): (es: seq<Event>) {
    if n == 0 then [] else [Slot(true)] + Waits(n - 1)
  }

  lemma {:induction false} WaitsDoNothing(budget: Timeouts, s: State, n: nat)
    ensures Run(budget, s, Waits(n)) == s
  {
    if n > 0 {
      assert Waits(n)[1..] == Waits(n - 1);
      WaitsDoNothing(budget, s, n - 1);
    }
  }

  /** A deferred commit is applied by the first free slot, however long that takes, and the one after it listens
      with the new configuration and its timeout. */
  lemma DeferredIsApplied(budget: Timeouts, s: State, c: Config, n: nat, m: nat)
    ensures var s1 := Run(budget, Step(budget, s, Commit(c, false)), Waits(n));
      var (s2, none) := SlotStep(budget, s1, false);
      var (s3, listen) := SlotStep(budget, Run(budget, s2, Waits(m)), false);
      && none == None && s2.radio == c && !s2.pending && s2.autoAck == Some(c.frameFilter)
      && listen == Some(Listen(budget(c), c))
  {
    var s0 := Step(budget, s, Commit(c, false));
    WaitsDoNothing(budget, s0, n);
    WaitsDoNothing(budget, SlotStep(budget, s0, false).0, m);
  }
}
