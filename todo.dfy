/** The to-do list itself: a `Task` per item and the `TodoApp` that owns
    the list, the new-item text field and the tab bar. Widget layout,
    focus and rendering are not modelled; `TodoApp`'s `update()` is
    modelled as what it triggers in the model, the `before_update` filter. */
module Todo {
  import opened ListOps
  import opened TaskModel
  import opened Filter

  /** One to-do item. Its fields are the state its widgets carry. */
  class Task {
    /** The text the task was made from; kept, never read again. */
    const taskText: string
    var labelText: string
    var editValue: string
    var checkboxValue: bool
    var completed: bool
    var displayVisible: bool
    var editVisible: bool
    var visible: bool

    /** The task's whole observable state as a value. */
    function View(): TaskView
      reads this
    {
      TaskView(labelText, editValue, checkboxValue, completed, displayVisible, editVisible, visible)
    }

    /** A new task: unticked, not completed, labelled with `text`, showing
        its display row and hiding its edit row. */
    constructor (text: string)
      ensures taskText == text
      ensures View() == NewTaskView(text)
      ensures labelText == text && !completed && !checkboxValue
      ensures displayVisible && !editVisible && ModeOk(View())
    {
      taskText := text;
      completed := false;
      checkboxValue := false;
      labelText := text;
      editValue := "";
      displayVisible := true;
      editVisible := false;
      visible := true;
    }

    /** The edit button: copy the label into the edit field and swap the rows. */
    method EditClicked()
      modifies this
      ensures View() == EditView(old(View()))
      ensures editValue == old(labelText) && labelText == old(labelText)
      ensures !displayVisible && editVisible
    {
      editValue := labelText;
      displayVisible := false;
      editVisible := true;
    }

    /** The save button: copy the edit field into the label and swap the rows back. */
    method SaveClicked()
      modifies this
      ensures View() == SaveView(old(View()))
      ensures labelText == old(editValue) && editValue == old(editValue)
      ensures displayVisible && !editVisible
    {
      labelText := editValue;
      displayVisible := true;
      editVisible := false;
    }

    /** The checkbox's change handler: completion follows the checkbox. */
    method StatusChanged()
      modifies this
      ensures View() == StatusView(old(View()))
      ensures completed == checkboxValue == old(checkboxValue)
    {
      completed := checkboxValue;
    }

    /** The user typing into the edit field. */
    method EnterEditText(text: string)
      modifies this
      ensures View() == old(View()).(editValue := text)
    {
      editValue := text;
    }

    /** The checkbox widget storing a tick or an untick before it calls its
        change handler. */
    method SetCheckbox(value: bool)
      modifies this
      ensures View() == old(View()).(checkboxValue := value)
    {
      checkboxValue := value;
    }
  }

  /** The observable states of a list of tasks, in list order. */
  function ViewsOf(ts: seq<Task>): (r: seq<TaskView>)
    reads ts
    ensures |r| == |ts|
    ensures forall k :: 0 <= k < |ts| ==> r[k] == ts[k].View()
  {
    if ts == [] then [] else [ts[0].View()] + ViewsOf(ts[1..])
  }

  /** The whole to-do list. */
  class TodoApp {
    /** The text of the "What needs to be done?" field. */
    var newTask: string
    /** The tasks, in the order they are listed; each task object at most once. */
    var tasks: seq<Task>
    /** The selected tab, an index into `Tabs`. */
    var selectedIndex: nat

    ghost predicate Valid()
      reads this
    {
      Distinct(tasks) && selectedIndex < |Tabs|
    }

    /** The caption of the selected tab. */
    function Status(): string
      reads this
      requires Valid()
    {
      Tabs[selectedIndex]
    }

    /** The states of all tasks, in list order. */
    function Views(): seq<TaskView>
      reads this, tasks
    {
      ViewsOf(tasks)
    }

    /** An empty list, an empty input field, the first tab ("all") selected. */
    constructor ()
      ensures Valid()
      ensures tasks == [] && newTask == "" && selectedIndex == InitialTab
      ensures Status() == "all"
    {
      newTask := "";
      tasks := [];
      selectedIndex := InitialTab;
    }

    /** The user typing into the new-task field. */
    method EnterNewTaskText(text: string)
      modifies this
      ensures newTask == text && tasks == old(tasks) && selectedIndex == old(selectedIndex)
    {
      newTask := text;
    }

    /** `before_update`: set every task's visibility from the selected tab.
        The list, and every other field of every task, stay as they were. */
    method BeforeUpdate()
      requires Valid()
      modifies tasks
      ensures Valid()
      ensures tasks == old(tasks) && selectedIndex == old(selectedIndex) && newTask == old(newTask)
      ensures Views() == ApplyFilter(Status(), old(Views()))
      ensures Filtered(Status(), Views())
    {
      var status := Tabs[selectedIndex];
      ghost var before := Views();
      for i := 0 to |tasks|
        invariant forall k :: 0 <= k < i ==>
          tasks[k].View() == before[k].(visible := Shown(status, before[k].completed))
        invariant forall k :: i <= k < |tasks| ==> tasks[k].View() == before[k]
      {
        tasks[i].visible := Shown(status, tasks[i].completed);
      }
      assert Views() == ApplyFilter(status, before);
      ApplyFilterFiltered(status, before);
    }

    /** The add button (or Enter in the field): append a task made from the
        field's text, whatever it is, clear the field, and refilter. Earlier
        tasks keep their place and all their state but `visible`. */
    method AddClicked()
      requires Valid()
      modifies this, tasks
      ensures Valid()
      ensures |tasks| == |old(tasks)| + 1
      ensures tasks[..|old(tasks)|] == old(tasks)
      ensures fresh(tasks[|old(tasks)|])
      ensures tasks[|old(tasks)|].labelText == old(newTask)
      ensures newTask == "" && selectedIndex == old(selectedIndex)
      ensures Views() == ApplyFilter(Status(), old(Views()) + [NewTaskView(old(newTask))])
    {
      var task := new Task(newTask);
      ghost var before := Views();
      tasks := tasks + [task];
      newTask := "";
      assert Views() == before + [NewTaskView(old(newTask))];
      BeforeUpdate();
    }

    /** `task_delete`: remove the given task, which must be in the list,
        and refilter. The other tasks keep their order and their state but
        `visible`. */
    method TaskDelete(t: Task)
      requires Valid() && t in tasks
      modifies this, tasks
      ensures Valid()
      ensures tasks == RemoveFirst(old(tasks), t)
      ensures t !in tasks && |tasks| == |old(tasks)| - 1
      ensures newTask == old(newTask) && selectedIndex == old(selectedIndex)
      ensures Views() == ApplyFilter(Status(), old(ViewsOf(RemoveFirst(tasks, t))))
    {
      var remaining := RemoveFirst(tasks, t);
      ghost var rest := ViewsOf(remaining);
      RemoveFirstDistinct(tasks, t);
      tasks := remaining;
      assert Views() == rest;
      BeforeUpdate();
    }

    /** A task's delete button: the task hands itself to `TaskDelete`. */
    method DeleteClicked(t: Task)
      requires Valid() && t in tasks
      modifies this, tasks
      ensures Valid()
      ensures tasks == RemoveFirst(old(tasks), t)
      ensures newTask == old(newTask) && selectedIndex == old(selectedIndex)
      ensures Views() == ApplyFilter(Status(), old(ViewsOf(RemoveFirst(tasks, t))))
    {
      TaskDelete(t);
    }

    /** The tab bar: the widget records the chosen tab, whose index is
        below `|Tabs|`, and the change handler refilters. */
    method TabsChanged(index: nat)
      requires Valid() && index < |Tabs|
      modifies this, tasks
      ensures Valid()
      ensures selectedIndex == index && tasks == old(tasks) && newTask == old(newTask)
      ensures Views() == ApplyFilter(Tabs[index], old(Views()))
    {
      selectedIndex := index;
      assert Views() == old(Views());
      BeforeUpdate();
    }

    /** A task's checkbox is ticked or unticked: the widget stores the new
        value, the task's handler copies it into `completed`, and the
        task's status callback refilters the list. */
    method CheckboxChanged(t: Task, value: bool)
      requires Valid() && t in tasks
      modifies tasks
      ensures t.completed == value && t.checkboxValue == value
      ensures Views() == ApplyFilter(Status(),
        old(Views())[IndexOf(tasks, t) := StatusView(old(t.View()).(checkboxValue := value))])
    {
      ghost var i := IndexOf(tasks, t);
      ghost var changed := Views()[i := StatusView(t.View().(checkboxValue := value))];
      t.SetCheckbox(value);
      t.StatusChanged();
      assert Views() == changed;
      BeforeUpdate();
    }
  }
}

/** A session with the list, using nothing but the contracts above: two
    tasks are added, the first is ticked, the "active" tab then shows only
    the second, and deleting the first leaves the second alone in the list. */
module TodoScenario {
  import opened ListOps
  import opened TaskModel
  import opened Filter
  import opened Todo

  method Session()
  {
    var app := new TodoApp();
    app.EnterNewTaskText("milk");
    app.AddClicked();
    ghost var v1 := app.Views();
    assert v1 == ApplyFilter("all", [NewTaskView("milk")]);
    assert v1[0].labelText == "milk";
    app.EnterNewTaskText("");
    app.AddClicked();
    ghost var v2 := app.Views();
    assert v2 == ApplyFilter("all", v1 + [NewTaskView("")]);
    assert v2[0].labelText == "milk" && !v2[0].completed && !v2[1].completed;
    var first, second := app.tasks[0], app.tasks[1];
    assert app.tasks == [first, second] && first != second;
    app.CheckboxChanged(first, true);
    assert app.Views()[0].completed && !app.Views()[1].completed by {
      assert IndexOf([first, second], first) == 0;
    }
    ActiveTabThenDelete(app);
  }

  /** Continues the session: two tasks, the first ticked. */
  method ActiveTabThenDelete(app: TodoApp)
    requires app.Valid() && |app.tasks| == 2
    requires app.Views()[0].completed && !app.Views()[1].completed
    modifies app, app.tasks
  {
    var first, second := app.tasks[0], app.tasks[1];
    app.TabsChanged(1);
    assert !app.Views()[0].visible && app.Views()[1].visible;
    assert IndexOf([first, second], first) == 0;
    app.TaskDelete(first);
    assert app.tasks == [second];
  }
}
