/**
 * tasks/todo_task.py: the to-do list (todo_list.json, a mapping from task id
 * to task text) and the "add task ...", "remove task ..." and "show task"
 * commands.
 */
module TodoTask {
  import opened PyStr

  /** What `handle_todo` makes of a command. */
  datatype TodoRequest =
    | TodoAdd(text: string)
    | TodoRemove(id: string)
    | TodoShow
    | NotATodo // handle_todo returns False

  /** The dispatch part of `handle_todo`. The command is stripped but its
      case is kept. */
  function ParseTodoCommand(command: string): (r: TodoRequest)
    ensures r.TodoAdd? ==> r.text != ""
    ensures r.TodoRemove? ==> r.id != ""
  {
    var c := Strip(command);
    if StartsWith(c, "add task") then
      var task := Strip(ReplaceFirst(c, "add task", ""));
      if task != "" then TodoAdd(task) else NotATodo
    else if StartsWith(c, "remove task") then
      var suffix := Strip(ReplaceFirst(c, "remove task", ""));
      var id := if IsDigits(suffix) then "task-" + suffix else suffix;
      if id != "" then TodoRemove(id) else NotATodo
    else if c == "show task" then TodoShow
    else NotATodo
  }

  /** "add task X" adds the stripped X, and is declined when X is blank. */
  lemma AddTaskCommand(command: string)
    requires StartsWith(Strip(command), "add task")
    ensures var x := Strip(Strip(command)[|"add task"|..]);
      ParseTodoCommand(command) == (if x != "" then TodoAdd(x) else NotATodo)
  {
    var c := Strip(command);
    assert ReplaceFirst(c, "add task", "") == c[|"add task"|..];
  }

  /** "remove task N" with an all-digit N targets "task-N"; any other
      suffix is the id itself; an empty suffix is declined. */
  lemma RemoveTaskCommand(command: string)
    requires StartsWith(Strip(command), "remove task") && !StartsWith(Strip(command), "add task")
    ensures var x := Strip(Strip(command)[|"remove task"|..]);
      && (IsDigits(x) ==> ParseTodoCommand(command) == TodoRemove("task-" + x))
      && (!IsDigits(x) && x != "" ==> ParseTodoCommand(command) == TodoRemove(x))
      && (x == "" ==> ParseTodoCommand(command) == NotATodo)
  {
    var c := Strip(command);
    assert ReplaceFirst(c, "remove task", "") == c[|"remove task"|..];
  }

  /** Only the exact, stripped "show task" lists the tasks, and
      `handle_todo` declines every command of none of the three forms. */
  lemma ShowAndDeclined(command: string)
    ensures ParseTodoCommand(command).TodoShow? <==> Strip(command) == "show task"
    ensures (!StartsWith(Strip(command), "add task") && !StartsWith(Strip(command), "remove task")
             && Strip(command) != "show task") ==> ParseTodoCommand(command) == NotATodo
  {
    if Strip(command) == "show task" {
      assert !StartsWith("show task", "add task") by {
        assert "show task"[0] != "add task"[0];
      }
      assert !StartsWith("show task", "remove task");
    }
  }

  /** The case of the command is kept: a command whose first letter is a
      capital ("Show task", "Add task milk") is declined. */
  lemma CaseIsSignificant(command: string)
    requires Strip(command) != [] && 'A' <= Strip(command)[0] <= 'Z'
    ensures ParseTodoCommand(command) == NotATodo
  {
    var c := Strip(command);
    assert c[0] != "add task"[0] && c[0] != "remove task"[0] && c[0] != "show task"[0];
    assert forall k :: 0 < k <= |c| ==> c[..k][0] == c[0];
  }

  /** The id of the n-th task. */
  function TaskId(n: nat): string {
    "task-" + NatToString(n)
  }

  /** Different tasks never share an id. */
  lemma TaskIdInjective(a: nat, b: nat)
    ensures TaskId(a) == TaskId(b) <==> a == b
  {
    if TaskId(a) == TaskId(b) {
      PrefixCancel("task-", NatToString(a), NatToString(b));
      NatToStringInjective(a, b);
    }
  }

  /** `add_task` on the loaded list. */
  function Add(m: map<string, string>, text: string): map<string, string> {
    m[TaskId(|m| + 1) := text]
  }

  /** Adding the texts one after the other. */
  function AddAll(m: map<string, string>, texts: seq<string>): map<string, string>
    decreases |texts|
  {
    if texts == [] then m
    else Add(AddAll(m, texts[..|texts| - 1]), texts[|texts| - 1])
  }

  /** The ids task-1 .. task-n. */
  function Ids(n: nat): set<string> {
    set i | 1 <= i <= n :: TaskId(i)
  }

  /** The next id is new, and joins the ids before it. */
  lemma IdsStep(n: nat)
    ensures TaskId(n + 1) !in Ids(n)
    ensures Ids(n + 1) == Ids(n) + {TaskId(n + 1)}
  {
    forall i | 1 <= i <= n
      ensures TaskId(i) != TaskId(n + 1)
    {
      TaskIdInjective(i, n + 1);
    }
  }

  /** One add to a list holding task-1 .. task-n: the new task is task-n+1,
      and every earlier task keeps its text. */
  lemma AddNext(m: map<string, string>, n: nat, text: string)
    requires m.Keys == Ids(n) && |m| == n
    ensures var m' := Add(m, text);
      && |m'| == n + 1
      && m'.Keys == Ids(n + 1)
      && m'[TaskId(n + 1)] == text
      && forall k :: k in m ==> k in m' && m'[k] == m[k]
  {
    IdsStep(n);
  }

  /** N adds to an empty list give the ids task-1 .. task-N. */
  lemma {:induction false} AddsFromEmptyIds(texts: seq<string>)
    ensures |AddAll(map[], texts)| == |texts|
    ensures AddAll(map[], texts).Keys == Ids(|texts|)
    decreases |texts|
  {
    if texts == [] {
      assert Ids(0) == {};
    } else {
      var n := |texts| - 1;
      AddsFromEmptyIds(texts[..n]);
      AddNext(AddAll(map[], texts[..n]), n, texts[n]);
    }
  }

  /** N adds to an empty list give the ids task-1 .. task-N, each holding
      its own text in the order added. */
  lemma {:induction false} AddsFromEmpty(texts: seq<string>)
    ensures var m := AddAll(map[], texts);
      && |m| == |texts|
      && m.Keys == Ids(|texts|)
      && forall i :: 1 <= i <= |texts| ==> m[TaskId(i)] == texts[i - 1]
    decreases |texts|
  {
    AddsFromEmptyIds(texts);
    if texts != [] {
      var n := |texts| - 1;
      var front := texts[..n];
      AddsFromEmpty(front);
      var m0 := AddAll(map[], front);
      var m := AddAll(map[], texts);
      assert m == Add(m0, texts[n]);
      assert |m0| == n;
      forall i | 1 <= i <= n + 1
        ensures m[TaskId(i)] == texts[i - 1]
      {
        if i <= n {
          TaskIdInjective(i, n + 1);
          assert m0[TaskId(i)] == front[i - 1] == texts[i - 1];
        }
      }
    }
  }

  /** Two tasks, the first removed: the next one added takes the id of the
      survivor and overwrites it. */
  lemma RemovalThenAddOverwrites(a: string, b: string, c: string)
    ensures var m := map[TaskId(1) := a, TaskId(2) := b] - {TaskId(1)};
      Add(m, c) == map[TaskId(2) := c]
  {
    TaskIdInjective(1, 2);
    var m := map[TaskId(1) := a, TaskId(2) := b] - {TaskId(1)};
    assert m == map[TaskId(2) := b];
  }

  /** The effect of a parsed command on the list. */
  function ApplyTodoRequest(m: map<string, string>, req: TodoRequest): (r: map<string, string>)
    ensures req.TodoAdd? ==>
      r.Keys == m.Keys + {TaskId(|m| + 1)} && r[TaskId(|m| + 1)] == req.text
      && forall k :: k in m && k != TaskId(|m| + 1) ==> r[k] == m[k]
    ensures req.TodoRemove? ==> r.Keys == m.Keys - {req.id} && forall k :: k in r ==> r[k] == m[k]
    ensures !req.TodoAdd? && !req.TodoRemove? ==> r == m
  {
    match req
    case TodoAdd(text) => Add(m, text)
    case TodoRemove(id) => m - {id}
    case _ => m
  }

  /** todo_list.json, loaded and saved whole around every command. */
  class TodoFile {
    var tasks: map<string, string>

    /** The module creates the file holding `{}` when it is missing. */
    constructor ()
      ensures tasks == map[]
    {
      tasks := map[];
    }

    /** `add_task`: the text is stored under the next sequential id. */
    method AddTask(text: string)
      modifies this
      ensures tasks == Add(old(tasks), text)
    {
      var nextId := |tasks| + 1;
      var taskId := "task-" + NatToString(nextId);
      tasks := tasks[taskId := text];
    }

    /** `remove_task_by_id`: reports whether the id was there. */
    method RemoveTaskById(taskId: string) returns (found: bool)
      modifies this
      ensures found == (taskId in old(tasks))
      ensures tasks == old(tasks) - {taskId}
    {
      found := taskId in tasks;
      if found {
        tasks := tasks - {taskId};
      } else {
        assert tasks - {taskId} == tasks;
      }
    }

    /** `show_tasks`: the "id: text" lines, none exactly when the list is
        empty ("No tasks found."). */
    method ShowTasks() returns (lines: set<string>)
      ensures lines == set k | k in tasks :: k + ": " + tasks[k]
      ensures lines == {} <==> tasks == map[]
    {
      if tasks == map[] {
        lines := {};
      } else {
        lines := set k | k in tasks :: k + ": " + tasks[k];
        var k :| k in tasks;
        assert k + ": " + tasks[k] in lines;
      }
    }

    /** `handle_todo`. */
    method HandleTodo(command: string) returns (handled: bool, lines: set<string>)
      modifies this
      ensures var req := ParseTodoCommand(command);
        && handled == !req.NotATodo?
        && tasks == ApplyTodoRequest(old(tasks), req)
        && lines == (if req.TodoShow? then set k | k in old(tasks) :: k + ": " + old(tasks)[k] else {})
    {
      var req := ParseTodoCommand(command);
      lines := {};
      match req {
        case TodoAdd(text) =>
          AddTask(text);
          handled := true;
        case TodoRemove(id) =>
          var _ := RemoveTaskById(id);
          handled := true;
        case TodoShow =>
          lines := ShowTasks();
          handled := true;
        case NotATodo =>
          handled := false;
      }
    }
  }
}
