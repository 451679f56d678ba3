/**
 * The root aggregate of a pipeline definition. Named entities are acquired
 * by lookup-or-create: the first entity with the requested name is returned,
 * and on a miss a new one is appended to its ordered collection.
 */
module Configurations {
  import opened Wrappers
  import opened Commands
  import opened Tasks
  import opened Lookup

  /** An ordered, append-only list of step records. */
  type CommandSequence = seq<CommandDefinition>

  /** A set of tasks sharing setup and teardown hooks; only its identity is modelled. */
  class TaskGroup {
    const name: string

    constructor (name: string)
      ensures this.name == name
    {
      this.name := name;
    }
  }

  /** An execution environment, identified by its build name. */
  class Variant {
    const buildName: string

    constructor (buildName: string)
      ensures this.buildName == buildName
    {
      this.buildName := buildName;
    }
  }

  function TaskNames(ts: seq<Task>): seq<string> {
    seq(|ts|, i requires 0 <= i < |ts| => ts[i].name)
  }

  function GroupNames(gs: seq<TaskGroup>): seq<string> {
    seq(|gs|, i requires 0 <= i < |gs| => gs[i].name)
  }

  function VariantNames(vs: seq<Variant>): seq<string> {
    seq(|vs|, i requires 0 <= i < |vs| => vs[i].buildName)
  }

  /**
   * The function table after acquiring `name`: created if absent, `name`
   * present afterwards with an empty body if it was missing, and every
   * existing entry kept as it was.
   */
  function WithFunction(fs: Option<map<string, CommandSequence>>, name: string): (r: map<string, CommandSequence>)
    ensures r.Keys == Entries(fs).Keys + {name}
    ensures forall k :: k in Entries(fs) ==> r[k] == Entries(fs)[k]
    ensures name !in Entries(fs) ==> r[name] == []
  {
    var m := Entries(fs);
    if name in m then m else m[name := []]
  }

  /** Acquiring a function twice leaves the table as the first acquisition did. */
  lemma WithFunctionIdempotent(fs: Option<map<string, CommandSequence>>, name: string)
    ensures WithFunction(Some(WithFunction(fs, name)), name) == WithFunction(fs, name)
  {
  }

  class Configuration {
    var functions: Option<map<string, CommandSequence>>
    var tasks: seq<Task>
    var groups: seq<TaskGroup>
    var variants: seq<Variant>
    var pre: CommandSequence
    var post: CommandSequence
    var timeout: CommandSequence

    /** An empty configuration: no function table, no entities, empty hooks. */
    constructor ()
      ensures functions == None && tasks == [] && groups == [] && variants == []
      ensures pre == [] && post == [] && timeout == []
    {
      functions := None;
      tasks, groups, variants := [], [], [];
      pre, post, timeout := [], [], [];
    }

    /**
     * Returns the first task named `name`, leaving the collection as it is;
     * on a miss appends a fresh zero-valued task with that name and returns it.
     */
    method Task(name: string) returns (t: Task)
      modifies this
      ensures TaskNames(tasks) == AcquiredNames(TaskNames(old(tasks)), name)
      ensures t == tasks[AcquiredIndex(TaskNames(old(tasks)), name)] && t.name == name
      ensures name in TaskNames(old(tasks)) ==> tasks == old(tasks)
      ensures name !in TaskNames(old(tasks)) ==>
        tasks == old(tasks) + [t] && fresh(t) &&
        t.priorityOverride == 0 && t.dependencies == [] && t.commands == []
      ensures Distinct(TaskNames(old(tasks))) ==>
        Distinct(TaskNames(tasks)) && multiset(TaskNames(tasks))[name] == 1
      ensures functions == old(functions) && groups == old(groups) && variants == old(variants)
      ensures pre == old(pre) && post == old(post) && timeout == old(timeout)
    {
      ghost var names := TaskNames(tasks);
      var i := 0;
      while i < |tasks|
        invariant 0 <= i <= |tasks|
        invariant name !in names[..i]
      {
        if tasks[i].name == name {
          FirstIndexAt(names, name, i);
          if Distinct(names) {
            AcquirePreservesDistinct(names, name);
          }
          return tasks[i];
        }
        assert names[..i + 1] == names[..i] + [names[i]];
        i := i + 1;
      }
      assert names[..i] == names;
      t := new Task(name);
      tasks := tasks + [t];
      assert TaskNames(tasks) == names + [name];
      if Distinct(names) {
        AcquirePreservesDistinct(names, name);
      }
    }

    /**
     * Returns the first group named `name`; on a miss appends a fresh group
     * with that name and returns it.
     */
    method TaskGroup(name: string) returns (g: TaskGroup)
      modifies this
      ensures GroupNames(groups) == AcquiredNames(GroupNames(old(groups)), name)
      ensures g == groups[AcquiredIndex(GroupNames(old(groups)), name)] && g.name == name
      ensures name in GroupNames(old(groups)) ==> groups == old(groups)
      ensures name !in GroupNames(old(groups)) ==> groups == old(groups) + [g] && fresh(g)
      ensures Distinct(GroupNames(old(groups))) ==>
        Distinct(GroupNames(groups)) && multiset(GroupNames(groups))[name] == 1
      ensures functions == old(functions) && tasks == old(tasks) && variants == old(variants)
      ensures pre == old(pre) && post == old(post) && timeout == old(timeout)
    {
      ghost var names := GroupNames(groups);
      var i := 0;
      while i < |groups|
        invariant 0 <= i <= |groups|
        invariant name !in names[..i]
      {
        if groups[i].name == name {
          FirstIndexAt(names, name, i);
          if Distinct(names) {
            AcquirePreservesDistinct(names, name);
          }
          return groups[i];
        }
        assert names[..i + 1] == names[..i] + [names[i]];
        i := i + 1;
      }
      assert names[..i] == names;
      g := new TaskGroup(name);
      groups := groups + [g];
      assert GroupNames(groups) == names + [name];
      if Distinct(names) {
        AcquirePreservesDistinct(names, name);
      }
    }

    /**
     * Returns the body of function `name`, creating the table if absent and
     * inserting an empty body on a miss.
     */
    method Function(name: string) returns (s: CommandSequence)
      modifies this
      ensures functions == Some(WithFunction(old(functions), name))
      ensures s == functions.value[name]
      ensures tasks == old(tasks) && groups == old(groups) && variants == old(variants)
      ensures pre == old(pre) && post == old(post) && timeout == old(timeout)
    {
      if functions.None? {
        functions := Some(map[]);
      }
      var table := functions.value;
      if name in table {
        s := table[name];
      } else {
        s := [];
        functions := Some(table[name := s]);
      }
    }

    /**
     * Returns the first variant whose build name is `id`; on a miss appends a
     * fresh variant with that build name and returns it.
     */
    method Variant(id: string) returns (v: Variant)
      modifies this
      ensures VariantNames(variants) == AcquiredNames(VariantNames(old(variants)), id)
      ensures v == variants[AcquiredIndex(VariantNames(old(variants)), id)] && v.buildName == id
      ensures id in VariantNames(old(variants)) ==> variants == old(variants)
      ensures id !in VariantNames(old(variants)) ==> variants == old(variants) + [v] && fresh(v)
      ensures Distinct(VariantNames(old(variants))) ==>
        Distinct(VariantNames(variants)) && multiset(VariantNames(variants))[id] == 1
      ensures functions == old(functions) && tasks == old(tasks) && groups == old(groups)
      ensures pre == old(pre) && post == old(post) && timeout == old(timeout)
    {
      ghost var names := VariantNames(variants);
      var i := 0;
      while i < |variants|
        invariant 0 <= i <= |variants|
        invariant id !in names[..i]
      {
        if variants[i].buildName == id {
          FirstIndexAt(names, id, i);
          if Distinct(names) {
            AcquirePreservesDistinct(names, id);
          }
          return variants[i];
        }
        assert names[..i + 1] == names[..i] + [names[i]];
        i := i + 1;
      }
      assert names[..i] == names;
      v := new Variant(id);
      variants := variants + [v];
      assert VariantNames(variants) == names + [id];
      if Distinct(names) {
        AcquirePreservesDistinct(names, id);
      }
    }
  }

  /**
   * Acquiring the same task name twice returns the same object, and the
   * second call leaves the collection of tasks as the first one left it.
   */
  method AcquireTaskTwice(c: Configuration, name: string) returns (first: Task, second: Task)
    modifies c
    ensures first == second && first.name == name
    ensures c.tasks == old(c.tasks) || c.tasks == old(c.tasks) + [first]
    ensures Distinct(TaskNames(old(c.tasks))) ==> multiset(TaskNames(c.tasks))[name] == 1
  {
    first := c.Task(name);
    second := c.Task(name);
    AcquireIdempotent(TaskNames(old(c.tasks)), name);
  }
}
