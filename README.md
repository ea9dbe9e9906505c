# To-do list state machine

A Dafny model of the to-do list application in `src/main.py` (a flet
tutorial app). Each to-do item is a `Task` and the list is a `TodoApp`. With
the widgets stripped away, they carry this state:

- a task: the checkbox label, the text of its edit field, the checkbox
  value, its `completed` flag, which of its two rows (display or edit) is
  shown, and whether it is shown at all under the selected tab;
- the list: the ordered sequence of task objects, the text of the
  "What needs to be done?" field, and the index of the selected tab among
  `"all"`, `"active"` and `"completed"`.

Files and modules:

- `list_ops.dfy`, module `ListOps`: Python's `list.remove` on the task list,
  as first-occurrence indexing and removal.
- `task_model.dfy`, module `TaskModel`: a task's state as a value
  (`TaskView`), and the state changes of its handlers as functions on that
  value. Also holds the display/edit mode invariant and the edit/save
  round trip.
- `filter.dfy`, module `Filter`: the tab captions, the visibility rule of
  `before_update` (`Shown`), the whole-list filter (`ApplyFilter`), and
  lemmas about them.
- `todo.dfy`, module `Todo`: the classes `Task` and `TodoApp`. Their fields
  are the widgets' state, and their methods update those fields in place.
  Each method's `ensures` ties the new state to the functions above. The
  `before_update` loop is a `for` loop over the task objects.
- `todo.dfy`, module `TodoScenario`: a short session that uses only the
  contracts. It adds two tasks, ticks one, switches to "active", and
  deletes the ticked task.

Modelling decisions:

- flet runs a control's `before_update` when that control is updated. So
  every `self.update()` of `TodoApp` is modelled as a call to
  `BeforeUpdate`. This covers adding, deleting, changing tab, and the
  task's status callback, which is `TodoApp.update`.
- A `Task`'s own `update()` re-renders only that task's subtree. So edit
  and save do not refilter the list.
- Some values are written by the widgets rather than by the code: the text
  typed into a field, the new checkbox value, the chosen tab index. These
  come in as method parameters (`EnterNewTaskText`, `EnterEditText`,
  `SetCheckbox`, and `TabsChanged`'s index).
- flet's `TextField.value` reads as `""` when unset. So the new-task field
  and every task's edit field start as `""`.
- `label` is a reserved word in Dafny, so the checkbox label is the field
  `labelText`.
- The callbacks a `Task` receives (`task_delete`, `task_status_change`) are
  not stored as fields. The app-level methods `DeleteClicked` and
  `CheckboxChanged` make those calls directly.

## Model

| member | source | states |
|---|---|---|
| `ListOps.IndexOf` | src/main.py:121 | the position `list.remove` finds: an occurrence of the value with none before it |
| `ListOps.RemoveFirst` | src/main.py:121 | `list.remove`: the result is one element shorter. Elements before the first occurrence keep their positions, and later ones move up by one. The multiset loses exactly one copy of the value |
| `ListOps.RemoveFirstDistinct` | src/main.py:120-121 | on a list without duplicates, the removed task is gone, every other task remains, and the list stays duplicate-free |
| `TaskModel.NewTaskView` | src/main.py:11-23 | a new task is not completed and unticked. Its label is the given text, its display row is shown, its edit row is hidden, and its edit field is empty |
| `TaskModel.EditView` | src/main.py:62-65 | edit copies the label into the edit field, hides the display row and shows the edit row. Completion, checkbox and visibility are untouched |
| `TaskModel.SaveView` | src/main.py:68-71 | save copies the edit field into the label, shows the display row and hides the edit row. Completion, checkbox and visibility are untouched |
| `TaskModel.StatusView` | src/main.py:77-78 | `completed` takes the checkbox value, and no other field changes |
| `TaskModel.ModeInvariant` | src/main.py:48-72 | exactly one of the two rows is shown after construction, after edit, after save, and after a status change |
| `TaskModel.EditSaveRoundTrip` | src/main.py:62-72 | edit then save, with the edit field left alone, keeps the label and returns to display mode. The only trace is the label copied into the edit field |
| `Filter.Shown` | src/main.py:130-134 | under "all" every task is shown, under "active" exactly the uncompleted ones, and under "completed" exactly the completed ones. An unknown caption shows nothing |
| `Filter.ActiveCompletedComplement` | src/main.py:130-134 | a task's visibility under "active" is the negation of its visibility under "completed" |
| `Filter.ApplyFilter` | src/main.py:127-134 | the filter keeps the list's length and order. Each task's `visible` becomes the rule's verdict, and no other field of any task changes |
| `Filter.ApplyFilterIdempotent` | src/main.py:127-134 | filtering twice under one tab equals filtering once |
| `Filter.ApplyFilterFiltered` | src/main.py:127-134 | after the filter every task's visibility agrees with the tab. A list already in agreement is left as it is, and only such a list is |
| `Filter.FilteredCount` | src/main.py:127-134 | after filtering, the number of tasks shown is the number the tab selects |
| `Filter.TabsPartition` | src/main.py:129-134 | "all" selects every task, and every task is selected by exactly one of "active" and "completed" |
| `Todo.Task.constructor` | src/main.py:7-60 | a new task has the state `NewTaskView(text)` and keeps `text` as `taskText` |
| `Todo.Task.EditClicked` | src/main.py:62-66 | the new state is `EditView` of the old state |
| `Todo.Task.SaveClicked` | src/main.py:68-72 | the new state is `SaveView` of the old state |
| `Todo.Task.StatusChanged` | src/main.py:77-78 | the new state is `StatusView` of the old state: `completed` equals the checkbox value |
| `Todo.Task.EnterEditText` | src/main.py:21 | typing into the edit field changes only the edit field's text |
| `Todo.Task.SetCheckbox` | src/main.py:15-20 | ticking or unticking the checkbox changes only the checkbox value |
| `Todo.TodoApp.constructor` | src/main.py:83-107 | the list starts empty, the input empty, and the first tab, "all", selected |
| `Todo.TodoApp.EnterNewTaskText` | src/main.py:85-87 | typing into the new-task field changes only its text |
| `Todo.TodoApp.BeforeUpdate` | src/main.py:127-134 | the task states become `ApplyFilter` of the old ones under the selected tab. The list, the tab and the input are unchanged |
| `Todo.TodoApp.AddClicked` | src/main.py:109-118 | exactly one fresh task is appended, labelled with the old input text, even an empty one. Earlier tasks keep their places and their states except `visible`. The input becomes `""`, and the list is refiltered |
| `Todo.TodoApp.TaskDelete` | src/main.py:120-122 | for a task in the list, the list becomes `RemoveFirst` of the old list: one shorter, the task gone, the rest in order. The remaining tasks keep their states except `visible`, and the list is refiltered |
| `Todo.TodoApp.DeleteClicked` | src/main.py:74-75 | the delete button hands the task itself to `TaskDelete`, with the same outcome |
| `Todo.TodoApp.TabsChanged` | src/main.py:124-125 | the chosen tab becomes the selected one, and the list is refiltered under it. Nothing else changes |
| `Todo.TodoApp.CheckboxChanged` | src/main.py:77-79 | the ticked task's checkbox and `completed` both become the new value, and the list is refiltered. No other task changes except `visible` |

## Left out

- `src/flaskrclient.py` (`FlaskrClient`, `BlogPost`): HTTP calls through a `requests` session, JSON decoding, `print` logging, and ISO-8601 parsing with `datetime.fromisoformat`. These are foreign code and network I/O, not part of the list's state machine.
- The paginated post feed, its page size and its single-flight lock: no code for them exists in the source files.
- `main(page)` and `ft.app(main)` (src/main.py:137-144): page set-up and rendering.
- Widget layout, icons, colours, tooltips and `width = 600`: presentation only.
- `self.update()` as rendering, and `self.new_task.focus()`: screen effects. Only the `before_update` refilter that an update triggers is modelled.
- The `task_delete` and `task_status_change` callback fields of a `Task`: the app-level methods make those calls directly, so the task-to-app reference is not modelled.
- Calling `task_delete` with a task that is not in the list raises `ValueError` from `list.remove`. It is a precondition here, because a task that is not in the list has no button to press.
- A tab index outside the three tabs would raise `IndexError` at src/main.py:128. The tab bar cannot produce one, so `TabsChanged` requires a valid index.
