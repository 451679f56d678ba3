/**
 * The engine-facing step record (`CommandDefinition`) with its fluent
 * mutators, the merge rules for its two optional maps, and the `Command`
 * abstraction that resolves into such a record.
 */
module Commands {
  import opened Wrappers

  /** Any JSON-representable parameter value (Go's `interface{}`). */
  datatype Value =
    | Null
    | Bool(b: bool)
    | Number(n: int)
    | Str(s: string)
    | List(items: seq<Value>)
    | Object(fields: map<string, Value>)

  type Params = map<string, Value>
  type Vars = map<string, string>

  /** Nanoseconds in one second: a duration is an integer count of nanoseconds. */
  const NanosPerSecond: int := 1_000_000_000

  /** A duration in nanoseconds converted to whole seconds, truncated toward zero. */
  function WholeSeconds(d: int): (r: int)
    ensures d >= 0 ==> 0 <= r && r * NanosPerSecond <= d < (r + 1) * NanosPerSecond
    ensures d < 0 ==> r <= 0 && (r - 1) * NanosPerSecond < d <= r * NanosPerSecond
  {
    if d >= 0 then d / NanosPerSecond else -((-d) / NanosPerSecond)
  }

  /** The entries of an optional map; an absent map has none. */
  function Entries<V>(m: Option<map<string, V>>): map<string, V> {
    m.GetOr(map[])
  }

  /**
   * Single-key upsert into an optional map, creating the map when absent:
   * `k` now maps to `v` and every other existing key keeps its value.
   */
  function Upsert<V>(m: Option<map<string, V>>, k: string, v: V): (r: map<string, V>)
    ensures r.Keys == Entries(m).Keys + {k}
    ensures r[k] == v
    ensures forall j :: j in Entries(m) && j != k ==> r[j] == Entries(m)[j]
  {
    Entries(m)[k := v]
  }

  /**
   * Merging `p` into the optional map `m`: an absent `m` adopts `p` as it is
   * (absent stays absent); a present `m` gains every entry of `p`, the
   * entries of `p` winning on collision, and loses nothing.
   */
  function Extend<V>(m: Option<map<string, V>>, p: Option<map<string, V>>): (r: Option<map<string, V>>)
    ensures m.None? ==> r == p
    ensures m.Some? ==> r.Some? && r.value.Keys == m.value.Keys + Entries(p).Keys
    ensures m.Some? ==> forall k :: k in Entries(p) ==> r.value[k] == Entries(p)[k]
    ensures m.Some? ==> forall k :: k in m.value && k !in Entries(p) ==> r.value[k] == m.value[k]
  {
    match m
    case None => p
    case Some(entries) => Some(entries + Entries(p))
  }

  /**
   * Copies every entry of `p` into `m`, one key at a time, in whatever order
   * the keys are visited: the result is the merge `Extend` describes.
   */
  method UpsertAll<V>(m: map<string, V>, p: map<string, V>) returns (r: map<string, V>)
    ensures Some(r) == Extend(Some(m), Some(p))
  {
    r := m;
    var pending := p.Keys;
    while pending != {}
      invariant pending <= p.Keys
      invariant r.Keys == m.Keys + (p.Keys - pending)
      invariant forall k :: k in p && k !in pending ==> r[k] == p[k]
      invariant forall k :: k in m && (k !in p || k in pending) ==> r[k] == m[k]
      decreases pending
    {
      var k :| k in pending;
      r := r[k := p[k]];
      pending := pending - {k};
    }
    assert r == m + p;
  }

  /** Merging `p` and then `q` is merging their last-writer-wins union once. */
  lemma {:induction false} ExtendTwice<V>(m: Option<map<string, V>>, p: map<string, V>, q: map<string, V>)
    ensures Extend(Extend(m, Some(p)), Some(q)) == Extend(m, Some(p + q))
  {
    match m
    case None =>
    case Some(entries) =>
      assert (entries + p) + q == entries + (p + q);
  }

  /** Merging the same map a second time changes nothing. */
  lemma {:induction false} ExtendIdempotent<V>(m: Option<map<string, V>>, p: Option<map<string, V>>)
    ensures Extend(Extend(m, p), p) == Extend(m, p)
  {
    match m {
      case None =>
        if p.Some? {
          assert p.value + p.value == p.value;
        }
      case Some(entries) =>
        assert (entries + Entries(p)) + Entries(p) == entries + Entries(p);
    }
  }

  /**
   * A value snapshot of one step record: everything a `CommandDefinition`
   * holds. `params` and `vars` are `None` when the Go map is nil.
   */
  datatype Definition = Definition(
    functionName: string,
    commandType: string,
    displayName: string,
    commandName: string,
    variants: seq<string>,
    timeoutSecs: int,
    params: Option<Params>,
    vars: Option<Vars>)

  /** The zero-valued record: all strings empty, no variants, no timeout, both maps absent. */
  const EmptyDefinition: Definition := Definition("", "", "", "", [], 0, None, None)

  /** One pipeline step as the builder mutates it in place. */
  class CommandDefinition {
    var functionName: string
    var commandType: string
    var displayName: string
    var commandName: string
    var variants: seq<string>
    var timeoutSecs: int
    var params: Option<Params>
    var vars: Option<Vars>

    /** The current contents of this record as a value. */
    function State(): Definition
      reads this
    {
      Definition(functionName, commandType, displayName, commandName, variants, timeoutSecs, params, vars)
    }

    /** A zero-valued record (`&CommandDefinition{}`). */
    constructor ()
      ensures State() == EmptyDefinition
    {
      functionName, commandType, displayName, commandName := "", "", "", "";
      variants, timeoutSecs := [], 0;
      params, vars := None, None;
    }

    /** A raw definition always validates. */
    function Validate(): (r: Outcome)
      ensures r == Pass
    {
      Pass
    }

    /** A raw definition resolves to itself, not to a copy. */
    function Resolve(): (r: CommandDefinition)
      ensures r == this
    {
      this
    }

    method Function(n: string) returns (r: CommandDefinition)
      modifies this
      ensures r == this && State() == old(State()).(functionName := n)
    {
      functionName := n;
      r := this;
    }

    method Type(n: string) returns (r: CommandDefinition)
      modifies this
      ensures r == this && State() == old(State()).(commandType := n)
    {
      commandType := n;
      r := this;
    }

    method DisplayName(n: string) returns (r: CommandDefinition)
      modifies this
      ensures r == this && State() == old(State()).(displayName := n)
    {
      displayName := n;
      r := this;
    }

    method Command(n: string) returns (r: CommandDefinition)
      modifies this
      ensures r == this && State() == old(State()).(commandName := n)
    {
      commandName := n;
      r := this;
    }

    /** Sets the timeout to the duration `d` (in nanoseconds) truncated to whole seconds. */
    method Timeout(d: int) returns (r: CommandDefinition)
      modifies this
      ensures r == this && State() == old(State()).(timeoutSecs := WholeSeconds(d))
    {
      timeoutSecs := WholeSeconds(d);
      r := this;
    }

    /** Appends `vs`, keeping order and duplicates. */
    method Variants(vs: seq<string>) returns (r: CommandDefinition)
      modifies this
      ensures r == this && State() == old(State()).(variants := old(variants) + vs)
    {
      variants := variants + vs;
      r := this;
    }

    /** Makes `vars` absent (not present-but-empty). */
    method ResetVars() returns (r: CommandDefinition)
      modifies this
      ensures r == this && State() == old(State()).(vars := None)
    {
      vars := None;
      r := this;
    }

    /** Makes `params` absent (not present-but-empty). */
    method ResetParams() returns (r: CommandDefinition)
      modifies this
      ensures r == this && State() == old(State()).(params := None)
    {
      params := None;
      r := this;
    }

    method ReplaceVars(v: Option<Vars>) returns (r: CommandDefinition)
      modifies this
      ensures r == this && State() == old(State()).(vars := v)
    {
      vars := v;
      r := this;
    }

    method ReplaceParams(v: Option<Params>) returns (r: CommandDefinition)
      modifies this
      ensures r == this && State() == old(State()).(params := v)
    {
      params := v;
      r := this;
    }

    /** Upserts one parameter, creating the map on first use. */
    method Param(k: string, v: Value) returns (r: CommandDefinition)
      modifies this
      ensures r == this && State() == old(State()).(params := Some(Upsert(old(params), k, v)))
    {
      if params.None? {
        params := Some(map[]);
      }
      params := Some(params.value[k := v]);
      r := this;
    }

    /** Adopts `p` when no parameters exist yet, otherwise copies every entry of `p` in. */
    method ExtendParams(p: Option<Params>) returns (r: CommandDefinition)
      modifies this
      ensures r == this && State() == old(State()).(params := Extend(old(params), p))
    {
      r := this;
      if params.None? {
        params := p;
        return;
      }
      var merged := UpsertAll(params.value, Entries(p));
      params := Some(merged);
    }

    /** Upserts one expansion variable, creating the map on first use. */
    method Var(k: string, v: string) returns (r: CommandDefinition)
      modifies this
      ensures r == this && State() == old(State()).(vars := Some(Upsert(old(vars), k, v)))
    {
      if vars.None? {
        vars := Some(map[]);
      }
      vars := Some(vars.value[k := v]);
      r := this;
    }

    /** Adopts `v` when no variables exist yet, otherwise copies every entry of `v` in. */
    method ExtendVars(v: Option<Vars>) returns (r: CommandDefinition)
      modifies this
      ensures r == this && State() == old(State()).(vars := Extend(old(vars), v))
    {
      r := this;
      if vars.None? {
        vars := v;
        return;
      }
      var merged := UpsertAll(vars.value, Entries(v));
      vars := Some(merged);
    }
  }

  /**
   * Two merges into a fresh record: the first adopts its argument, the
   * second overrides `x` and adds `y`.
   */
  method ExtendParamsLastWriterWins() returns (d: CommandDefinition)
    ensures d.params == Some(map["x" := Number(2), "y" := Number(3)])
  {
    d := new CommandDefinition();
    var _ := d.ExtendParams(Some(map["x" := Number(1)]));
    var _ := d.ExtendParams(Some(map["x" := Number(2), "y" := Number(3)]));
    assert map["x" := Number(1)] + map["x" := Number(2), "y" := Number(3)] == map["x" := Number(2), "y" := Number(3)];
  }

  /**
   * Anything that validates itself and resolves into a step record. A raw
   * `CommandDefinition` is one; every other implementation is described by
   * the outcome its validation reports and the record its resolution gives.
   */
  datatype Command =
    | Raw(def: CommandDefinition)
    | Other(validation: Outcome, resolution: CommandDefinition)

  function Validate(c: Command): (r: Outcome)
    ensures c.Raw? ==> r == Pass
  {
    match c
    case Raw(d) => d.Validate()
    case Other(v, _) => v
  }

  function Resolve(c: Command): (r: CommandDefinition)
    ensures c.Raw? ==> r == c.def
  {
    match c
    case Raw(d) => d.Resolve()
    case Other(_, d) => d
  }
}
