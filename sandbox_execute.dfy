/**
 * The sandbox entry point (`execute.py`): the syntax-tree check that refuses
 * imports and calls to `exec`, `eval` and `open`, and the exit status the
 * process ends with. Parsing, file access, `exec` of the user's code and
 * the call of its `run_backtest` are inputs: their outcomes are parameters.
 */
module SandboxExecute {

  import opened Wrappers

  /**
   * The parts of a Python syntax tree the check tells apart: import
   * statements, names, calls (callee first, then the arguments and keyword
   * values in order), attribute accesses, and every other node with its
   * children in field order.
   */
  datatype Node =
    | Import
    | ImportFrom
    | Name(id: string)
    | Call(func: Node, args: seq<Node>)
    | Attribute(value: Node, attr: string)
    | Other(children: seq<Node>)

  const ImportMessage := "Import statements are not allowed"

  /** The names whose direct call is refused. */
  const Forbidden: set<string> := {"exec", "eval", "open"}

  function CallMessage(name: string): string
  {
    "Call to '" + name + "' is not allowed"
  }

  /** A call whose callee is a bare forbidden name. */
  predicate ForbiddenCall(func: Node)
  {
    func.Name? && func.id in Forbidden
  }

  /** A refusal message is the import message or names a forbidden callee. */
  predicate RefusalMessage(m: string)
  {
    m == ImportMessage || exists name :: name in Forbidden && m == CallMessage(name)
  }

  /**
   * `SafeCodeVisitor().visit`: the message of the first offending node met
   * in a depth-first, left-to-right walk, or None when there is none.
   * A refused call is not descended into; any other call is.
   */
  function Visit(n: Node): (r: Option<string>)
    ensures n.Import? || n.ImportFrom? ==> r == Some(ImportMessage)
    ensures n.Call? && ForbiddenCall(n.func) ==> r == Some(CallMessage(n.func.id))
    ensures n.Name? ==> r.None?
    ensures r.Some? ==> RefusalMessage(r.value)
    decreases n, 1
  {
    match n
    case Import => Some(ImportMessage)
    case ImportFrom => Some(ImportMessage)
    case Name(_) => None
    case Call(func, args) =>
      if ForbiddenCall(func) then Some(CallMessage(func.id))
      else
        var inFunc := Visit(func);
        if inFunc.Some? then inFunc else VisitAll(args)
    case Attribute(value, _) => Visit(value)
    case Other(children) => VisitAll(children)
  }

  /** `generic_visit` over a list of children: the first one that raises. */
  function VisitAll(ns: seq<Node>): (r: Option<string>)
    ensures ns == [] ==> r.None?
    ensures |ns| > 0 && Visit(ns[0]).Some? ==> r == Visit(ns[0])
    ensures r.Some? ==> RefusalMessage(r.value)
    decreases ns, 0
  {
    if ns == [] then None
    else
      var first := Visit(ns[0]);
      if first.Some? then first else VisitAll(ns[1..])
  }

  // ---- an independent description of what is refused

  /** The tree holds an import, or a call of a bare forbidden name, anywhere. */
  predicate Offending(n: Node)
    decreases n, 1
  {
    match n
    case Import => true
    case ImportFrom => true
    case Name(_) => false
    case Call(func, args) => ForbiddenCall(func) || Offending(func) || AnyOffending(args)
    case Attribute(value, _) => Offending(value)
    case Other(children) => AnyOffending(children)
  }

  predicate AnyOffending(ns: seq<Node>)
    decreases ns, 0
  {
    exists i :: 0 <= i < |ns| && Offending(ns[i])
  }

  /**
   * The check refuses a tree exactly when an offending node occurs anywhere
   * in it, including inside the arguments of permitted calls, and its
   * message is one of the two refusal messages.
   */
  lemma {:induction false} VisitRefusesExactlyOffending(n: Node)
    ensures Visit(n).None? <==> !Offending(n)
    ensures Visit(n).Some? ==> RefusalMessage(Visit(n).value)
    decreases n, 1
  {
    match n
    case Import =>
    case ImportFrom =>
    case Name(_) =>
    case Call(func, args) =>
      if !ForbiddenCall(func) {
        VisitRefusesExactlyOffending(func);
        VisitAllRefusesExactlyOffending(args);
      }
    case Attribute(value, _) =>
      VisitRefusesExactlyOffending(value);
    case Other(children) =>
      VisitAllRefusesExactlyOffending(children);
  }

  lemma {:induction false} VisitAllRefusesExactlyOffending(ns: seq<Node>)
    ensures VisitAll(ns).None? <==> !AnyOffending(ns)
    ensures VisitAll(ns).Some? ==> RefusalMessage(VisitAll(ns).value)
    decreases ns, 0
  {
    if ns != [] {
      VisitRefusesExactlyOffending(ns[0]);
      VisitAllRefusesExactlyOffending(ns[1..]);
      if AnyOffending(ns) && !Offending(ns[0]) {
        var i :| 0 <= i < |ns| && Offending(ns[i]);
        assert ns[1..][i - 1] == ns[i];
      }
      if AnyOffending(ns[1..]) {
        var i :| 0 <= i < |ns[1..]| && Offending(ns[1..][i]);
        assert ns[i + 1] == ns[1..][i];
      }
    }
  }

  /** Calls through an attribute, such as `x.eval()`, are not refused. */
  lemma AttributeCallPasses()
    ensures Visit(Call(Attribute(Name("x"), "eval"), [])) == None
  {
  }

  /** A forbidden name that is not called, as in `f = exec`, is not refused. */
  lemma ReferencePasses()
    ensures Visit(Other([Name("f"), Name("exec")])) == None
  {
    assert VisitAll([Name("exec")]) == None;
  }

  /** A forbidden call in the arguments of a permitted call is still refused: `print(eval(s))`. */
  lemma NestedCallRefused()
    ensures Visit(Call(Name("print"), [Call(Name("eval"), [Name("s")])])) == Some("Call to 'eval' is not allowed")
  {
    var inner := Call(Name("eval"), [Name("s")]);
    assert ForbiddenCall(Name("eval"));
    assert Visit(inner) == Some(CallMessage("eval"));
    assert VisitAll([inner]) == Some(CallMessage("eval"));
    assert Visit(Name("print")) == None;
    assert CallMessage("eval") == "Call to 'eval' is not allowed";
  }

  // ---- the process outcome

  /** What reading the two input files gives. */
  datatype Files = Files(codeExists: bool, dataExists: bool, readable: bool)

  /** What the user code's namespace holds under `run_backtest` after `exec`. */
  datatype Binding = Unbound | NotCallable | Callable

  /**
   * `exec` of the user code: it raises an `Exception`, raises `SystemExit`
   * (a top-level `exit(n)` or `sys.exit(n)`, which the handler for
   * `Exception` does not catch, so the process ends with that status), or
   * leaves a binding.
   */
  datatype ExecOutcome = ExecRaised | ExecExited(status: int) | Executed(runBacktest: Binding)

  /**
   * The call of `run_backtest`: it raises an `Exception`, raises
   * `SystemExit` with a status, or returns a value whose JSON text may fail
   * to encode.
   */
  datatype RunOutcome = RunRaised | RunExited(status: int) | Returned(json: Option<string>)

  /** How the process ends: its exit status and what it wrote with `print`/`sys.stdout.write`. */
  datatype Exit = Exit(status: int, output: seq<string>)

  /** Both input files exist and can be read. */
  predicate FilesOk(files: Files)
  {
    files.codeExists && files.dataExists && files.readable
  }

  /** The code parses and the syntax-tree check lets it through. */
  predicate Passes(parsed: Result<Node, string>)
  {
    parsed.Ok? && !Offending(parsed.value)
  }

  /**
   * The `__main__` block: 2 when a file is missing or unreadable; 1 on a
   * syntax error, a refused tree (after printing "Invalid user code: …"),
   * an `exec` that raises, no callable `run_backtest`, a call that raises or
   * a result that does not encode; the user's own status, with nothing
   * written, when `exec` or the call raises `SystemExit`; otherwise 0 with
   * the encoded result written out.
   */
  function RunSandbox(files: Files, parsed: Result<Node, string>, exec: ExecOutcome, run: RunOutcome): (r: Exit)
    ensures !FilesOk(files) ==> r == Exit(2, [])
    ensures FilesOk(files) && !Passes(parsed) ==> r.status == 1
    ensures FilesOk(files) && Passes(parsed) && exec.ExecExited? ==> r == Exit(exec.status, [])
    ensures FilesOk(files) && Passes(parsed) && (exec.ExecRaised? || (exec.Executed? && exec.runBacktest != Callable)) ==>
      r == Exit(1, [])
    ensures FilesOk(files) && Passes(parsed) && exec == Executed(Callable) && (run.RunRaised? || (run.Returned? && run.json.None?)) ==>
      r == Exit(1, [])
    ensures FilesOk(files) && Passes(parsed) && exec == Executed(Callable) && run.RunExited? ==>
      r == Exit(run.status, [])
    ensures r.status !in {0, 1, 2} ==> r.output == [] && (exec.ExecExited? || run.RunExited?)
    ensures r.status == 0 && r.output != [] <==>
      && FilesOk(files) && Passes(parsed)
      && exec == Executed(Callable) && run.Returned? && run.json.Some?
    ensures r.status == 0 && r.output != [] ==> r.output == [run.json.value]
  {
    if !files.codeExists || !files.dataExists || !files.readable then Exit(2, [])
    else if parsed.Err? then Exit(1, [])
    else
      var refusal := Visit(parsed.value);
      VisitRefusesExactlyOffending(parsed.value);
      if refusal.Some? then Exit(1, ["Invalid user code: " + refusal.value])
      else if exec.ExecExited? then Exit(exec.status, [])
      else if exec.ExecRaised? || exec.runBacktest != Callable then Exit(1, [])
      else if run.RunExited? then Exit(run.status, [])
      else if run.RunRaised? || run.json.None? then Exit(1, [])
      else Exit(0, [run.json.value])
  }

  /** A user `exit(0)` ends the process with status 0 and no result written. */
  lemma ExitZeroWritesNothing(files: Files, tree: Node)
    requires FilesOk(files) && !Offending(tree)
    ensures RunSandbox(files, Ok(tree), ExecExited(0), RunRaised) == Exit(0, [])
    ensures RunSandbox(files, Ok(tree), Executed(Callable), RunExited(0)) == Exit(0, [])
  {
  }

  /** Refused code is never executed: the outcome does not depend on `exec` or the run, and names the refusal. */
  lemma RefusedCodeNeverRuns(files: Files, tree: Node, e1: ExecOutcome, e2: ExecOutcome, r1: RunOutcome, r2: RunOutcome)
    requires FilesOk(files) && Offending(tree)
    ensures RunSandbox(files, Ok(tree), e1, r1) == RunSandbox(files, Ok(tree), e2, r2)
    ensures var out := RunSandbox(files, Ok(tree), e1, r1);
      out.status == 1 && |out.output| == 1 && out.output[0] == "Invalid user code: " + Visit(tree).value
  {
    VisitRefusesExactlyOffending(tree);
  }
}
