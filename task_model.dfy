/** The state one to-do item carries, stripped of its widgets: the
    checkbox's label and value, the edit field's text, which of the two
    rows is shown, and whether the item itself is shown. */
module TaskModel {

  /** The observable state of one task.
      labelText      the checkbox label (`display_task.label`)
      editValue      the text of the edit field (`edit_name.value`)
      checkboxValue  the checkbox value (`display_task.value`)
      completed      the task's own completion flag
      displayVisible whether the display row (checkbox + buttons) is shown
      editVisible    whether the edit row (text field + save) is shown
      visible        whether the task as a whole is shown under the current tab */
  datatype TaskView = TaskView(
    labelText: string,
    editValue: string,
    checkboxValue: bool,
    completed: bool,
    displayVisible: bool,
    editVisible: bool,
    visible: bool)

  /** Exactly one of the two rows is shown. */
  predicate ModeOk(v: TaskView)
  {
    v.displayVisible != v.editVisible
  }

  /** The task is in display mode: the checkbox row is shown. */
  predicate Displaying(v: TaskView)
  {
    v.displayVisible && !v.editVisible
  }

  /** The state of a freshly built task: not completed, unticked, labelled
      with the given text, display row shown, edit row hidden. An unset
      text field reads as the empty string. */
  function NewTaskView(text: string): (r: TaskView)
    ensures r.labelText == text && !r.completed && !r.checkboxValue
    ensures Displaying(r) && ModeOk(r) && r.visible
    ensures r.editValue == ""
  {
    TaskView(text, "", false, false, true, false, true)
  }

  /** Pressing "edit": the label is copied into the edit field and the edit
      row replaces the display row. Nothing else changes. */
  function EditView(v: TaskView): (r: TaskView)
    ensures r.editValue == v.labelText && r.labelText == v.labelText
    ensures ModeOk(r) && !r.displayVisible && r.editVisible
    ensures r.completed == v.completed && r.checkboxValue == v.checkboxValue && r.visible == v.visible
  {
    v.(editValue := v.labelText, displayVisible := false, editVisible := true)
  }

  /** Pressing "save": the edit field's text becomes the label and the
      display row replaces the edit row. Nothing else changes. */
  function SaveView(v: TaskView): (r: TaskView)
    ensures r.labelText == v.editValue && r.editValue == v.editValue
    ensures ModeOk(r) && Displaying(r)
    ensures r.completed == v.completed && r.checkboxValue == v.checkboxValue && r.visible == v.visible
  {
    v.(labelText := v.editValue, displayVisible := true, editVisible := false)
  }

  /** The checkbox handler: completion follows the checkbox, nothing else changes. */
  function StatusView(v: TaskView): (r: TaskView)
    ensures r.completed == v.checkboxValue
    ensures r.(completed := v.completed) == v
  {
    v.(completed := v.checkboxValue)
  }

  /** Every handler of a task keeps exactly one of its two rows shown. */
  lemma ModeInvariant(v: TaskView, text: string)
    ensures ModeOk(NewTaskView(text))
    ensures ModeOk(EditView(v)) && ModeOk(SaveView(v))
    ensures ModeOk(v) ==> ModeOk(StatusView(v))
  {
  }

  /** Edit followed by save, with the edit field left untouched, gives back
      the display-mode task with its label unchanged; only the edit field
      now holds a copy of the label. */
  lemma EditSaveRoundTrip(v: TaskView)
    requires Displaying(v)
    ensures SaveView(EditView(v)).labelText == v.labelText
    ensures SaveView(EditView(v)) == v.(editValue := v.labelText)
  {
  }
}
