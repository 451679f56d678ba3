/**
 * A task: a named unit of work whose body is an ordered command sequence,
 * built up by appending resolved commands, function calls and dependencies.
 */
module Tasks {
  import opened Wrappers
  import opened Commands

  /** An edge to another task, optionally pinned to a variant ("" means any). */
  datatype TaskDependency = TaskDependency(name: string, variant: string)

  /** The position of the first command whose validation fails, if any. */
  function FirstFailure(cmds: seq<Command>): (r: Option<nat>)
    ensures r.None? <==> forall i :: 0 <= i < |cmds| ==> Validate(cmds[i]).Pass?
    ensures r.Some? ==> r.value < |cmds| && Validate(cmds[r.value]).Fail?
    ensures r.Some? ==> forall i :: 0 <= i < r.value ==> Validate(cmds[i]).Pass?
  {
    if cmds == [] then None
    else if Validate(cmds[0]).Fail? then Some(0)
    else
      match FirstFailure(cmds[1..])
      case None => None
      case Some(i) => Some(i + 1)
  }

  /** The records the commands resolve to, in call order. */
  function ResolveAll(cmds: seq<Command>): seq<CommandDefinition> {
    seq(|cmds|, i requires 0 <= i < |cmds| => Resolve(cmds[i]))
  }

  /**
   * What a validate-then-append pass over `cmds` appends: every resolution
   * when all validate, otherwise those of the commands before the first
   * failure and nothing from it onwards.
   */
  function Appended(cmds: seq<Command>): (r: seq<CommandDefinition>)
    ensures |r| <= |cmds|
    ensures forall i :: 0 <= i < |r| ==> r[i] == Resolve(cmds[i]) && Validate(cmds[i]).Pass?
    ensures |r| < |cmds| ==> Validate(cmds[|r|]).Fail?
  {
    match FirstFailure(cmds)
    case None => ResolveAll(cmds)
    case Some(i) => ResolveAll(cmds[..i])
  }

  /** The outcome such a pass reports: the first failure, or success. */
  function CommandOutcome(cmds: seq<Command>): (r: Outcome)
    ensures r.Pass? <==> |Appended(cmds)| == |cmds|
    ensures r.Fail? ==> r == Validate(cmds[|Appended(cmds)|])
  {
    match FirstFailure(cmds)
    case None => Pass
    case Some(i) => Validate(cmds[i])
  }

  /** Resolution distributes over concatenation. */
  lemma ResolveAllConcat(xs: seq<Command>, ys: seq<Command>)
    ensures ResolveAll(xs + ys) == ResolveAll(xs) + ResolveAll(ys)
  {
  }

  /** After commands that all validate, the first failure is the first failure of what follows. */
  lemma {:induction false} FirstFailureAfterPassing(xs: seq<Command>, ys: seq<Command>)
    requires FirstFailure(xs).None?
    ensures FirstFailure(xs + ys) ==
      match FirstFailure(ys)
      case None => None
      case Some(j) => Some(|xs| + j)
  {
    if xs == [] {
      assert xs + ys == ys;
    } else {
      assert Validate((xs + ys)[0]).Pass?;
      assert (xs + ys)[1..] == xs[1..] + ys;
      FirstFailureAfterPassing(xs[1..], ys);
    }
  }

  /**
   * Splitting the commands over two calls appends the same records as one
   * call, as long as the first call did not fail.
   */
  lemma {:induction false} AppendedSplit(xs: seq<Command>, ys: seq<Command>)
    requires CommandOutcome(xs).Pass?
    ensures Appended(xs + ys) == Appended(xs) + Appended(ys)
    ensures CommandOutcome(xs + ys) == CommandOutcome(ys)
  {
    FirstFailureAfterPassing(xs, ys);
    match FirstFailure(ys)
    case None =>
      ResolveAllConcat(xs, ys);
    case Some(j) =>
      assert (xs + ys)[..|xs| + j] == xs + ys[..j];
      assert (xs + ys)[|xs| + j] == ys[j];
      ResolveAllConcat(xs, ys[..j]);
  }

  class Task {
    /** The identity name; no operation renames a task. */
    const name: string
    var priorityOverride: int
    var dependencies: seq<TaskDependency>
    var commands: seq<CommandDefinition>

    /** A task with only its name set (`new(Task)` followed by `t.Name = name`). */
    constructor (name: string)
      ensures this.name == name
      ensures priorityOverride == 0 && dependencies == [] && commands == []
    {
      this.name := name;
      priorityOverride, dependencies, commands := 0, [], [];
    }

    /**
     * Validates and appends each command in order, stopping at the first
     * failure with the commands before it already appended (no rollback).
     * A `Fail` result stands for the panic of the original.
     */
    method Command(cmds: seq<Command>) returns (r: Task, result: Outcome)
      modifies this
      ensures r == this && result == CommandOutcome(cmds)
      ensures commands == old(commands) + Appended(cmds)
      ensures priorityOverride == old(priorityOverride) && dependencies == old(dependencies)
    {
      r := this;
      var i := 0;
      while i < |cmds|
        invariant 0 <= i <= |cmds|
        invariant forall j :: 0 <= j < i ==> Validate(cmds[j]).Pass?
        invariant commands == old(commands) + ResolveAll(cmds[..i])
        invariant priorityOverride == old(priorityOverride) && dependencies == old(dependencies)
      {
        var outcome := Validate(cmds[i]);
        if outcome.Fail? {
          assert FirstFailure(cmds) == Some(i);
          return this, outcome;
        }
        commands := commands + [Resolve(cmds[i])];
        assert ResolveAll(cmds[..i + 1]) == ResolveAll(cmds[..i]) + [Resolve(cmds[i])];
        i := i + 1;
      }
      assert cmds[..i] == cmds;
      result := Pass;
    }

    /** Appends one fresh zero-valued record and returns that same record. */
    method AddCommand() returns (d: CommandDefinition)
      modifies this
      ensures fresh(d) && d.State() == EmptyDefinition
      ensures commands == old(commands) + [d]
      ensures priorityOverride == old(priorityOverride) && dependencies == old(dependencies)
    {
      d := new CommandDefinition();
      commands := commands + [d];
    }

    /** Appends the dependencies in order; the command sequence is untouched. */
    method Dependency(deps: seq<TaskDependency>) returns (r: Task)
      modifies this
      ensures r == this && dependencies == old(dependencies) + deps
      ensures priorityOverride == old(priorityOverride) && commands == old(commands)
    {
      dependencies := dependencies + deps;
      r := this;
    }

    /**
     * Appends one fresh record per function name, in order, each with only
     * its function name set.
     */
    method Function(fns: seq<string>) returns (r: Task)
      modifies this
      ensures r == this
      ensures |commands| == |old(commands)| + |fns| && commands[..|old(commands)|] == old(commands)
      ensures forall i :: |old(commands)| <= i < |commands| ==>
        fresh(commands[i]) && commands[i].State() == EmptyDefinition.(functionName := fns[i - |old(commands)|])
      ensures forall i, j :: |old(commands)| <= i < j < |commands| ==> commands[i] != commands[j]
      ensures priorityOverride == old(priorityOverride) && dependencies == old(dependencies)
    {
      r := this;
      var k := 0;
      while k < |fns|
        invariant 0 <= k <= |fns|
        invariant |commands| == |old(commands)| + k && commands[..|old(commands)|] == old(commands)
        invariant forall i :: |old(commands)| <= i < |commands| ==>
          fresh(commands[i]) && commands[i].State() == EmptyDefinition.(functionName := fns[i - |old(commands)|])
        invariant forall i, j :: |old(commands)| <= i < j < |commands| ==> commands[i] != commands[j]
        invariant priorityOverride == old(priorityOverride) && dependencies == old(dependencies)
      {
        var d := new CommandDefinition();
        d.functionName := fns[k];
        commands := commands + [d];
        k := k + 1;
      }
    }

    /** Appends one fresh record calling function `id` with exactly the variables `vars`. */
    method FunctionWithVars(id: string, vars: Option<Vars>) returns (r: Task)
      modifies this
      ensures r == this && |commands| == |old(commands)| + 1
      ensures commands[..|old(commands)|] == old(commands)
      ensures fresh(commands[|old(commands)|])
      ensures commands[|old(commands)|].State() == EmptyDefinition.(functionName := id, vars := vars)
      ensures priorityOverride == old(priorityOverride) && dependencies == old(dependencies)
    {
      var d := new CommandDefinition();
      d.functionName, d.vars := id, vars;
      commands := commands + [d];
      r := this;
    }

    method Priority(p: int) returns (r: Task)
      modifies this
      ensures r == this && priorityOverride == p
      ensures dependencies == old(dependencies) && commands == old(commands)
    {
      priorityOverride := p;
      r := this;
    }
  }
}
