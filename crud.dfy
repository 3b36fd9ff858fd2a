/** The Crud component's controller: its five state variables and the event
    handlers that change them. Alerts are returned as outcomes, and the
    clock that stamps new tasks is the `id` argument of Add. */
module CrudComponent {
  import opened Text
  import opened Tasks

  datatype Option<T> = None | Some(value: T)

  datatype Tab = Pending | Completed

  /** What a handler reports: it ran, it raised the duplicate alert with
      this text, or it threw a TypeError before setting any state. */
  datatype Outcome = Done | Alert(message: string) | TypeError

  /** The alert shown for a duplicate draft; it quotes the raw draft. */
  function DuplicateMessage(draft: string): string {
    draft + " \U{2014} already in the list."
  }

  class Crud {
    var inputValue: string
    var tasks: seq<Task>
    var selectedTask: Option<Task>
    var completedTask: seq<Task>
    var currentTab: Tab

    /** Pending tasks have pairwise distinct keys, and no task, pending or
        completed, has a blank text. */
    ghost predicate Valid()
      reads this`tasks, this`completedTask
    {
      && DistinctTexts(tasks)
      && NonBlank(tasks)
      && NonBlank(completedTask)
    }

    constructor ()
      ensures Valid()
      ensures inputValue == [] && tasks == [] && selectedTask == None
      ensures completedTask == [] && currentTab == Pending
    {
      inputValue := "";
      tasks := [];
      selectedTask := None;
      completedTask := [];
      currentTab := Pending;
    }

    /** Typing in the input field replaces the draft. */
    method SetInput(value: string)
      requires Valid()
      modifies this`inputValue
      ensures Valid()
      ensures inputValue == value
    {
      inputValue := value;
    }

    /** addtaskHandler. The AddTask button is disabled while the draft is
        blank. A duplicate draft raises the alert and only clears the draft;
        any other draft is appended as is, untrimmed, under the given id. */
    method Add(id: int) returns (outcome: Outcome)
      requires Valid()
      requires Trim(inputValue) != []
      modifies this`tasks, this`inputValue
      ensures Valid()
      ensures inputValue == []
      ensures IsDuplicate(old(tasks), old(inputValue)) ==>
                outcome == Alert(DuplicateMessage(old(inputValue))) && tasks == old(tasks)
      ensures !IsDuplicate(old(tasks), old(inputValue)) ==>
                outcome == Done && tasks == old(tasks) + [Task(id, old(inputValue))]
    {
      if IsDuplicate(tasks, inputValue) {
        outcome := Alert(DuplicateMessage(inputValue));
        inputValue := "";
        return;
      }
      var transformedData := Task(id, inputValue);
      AppendKeepsDistinct(tasks, transformedData);
      tasks := tasks + [transformedData];
      inputValue := "";
      outcome := Done;
    }

    /** editTaskHandler: load the task's text into the draft and select it. */
    method BeginEdit(task: Task)
      requires Valid()
      modifies this`inputValue, this`selectedTask
      ensures Valid()
      ensures inputValue == task.text && selectedTask == Some(task)
    {
      inputValue := task.text;
      selectedTask := Some(task);
    }

    /** updateTaskHandler. The UpdateTask button is shown only while a task
        is selected and is disabled while the draft is blank. The duplicate
        test runs against every task, the selected one included; on a
        duplicate nothing changes. Otherwise the first task with the
        selected id gets the draft as its text and editing ends. When no
        task has that id any more, `findIndex` gives -1 and the write
        through `undefined` throws before any state is set. */
    method Update() returns (outcome: Outcome)
      requires Valid()
      requires selectedTask.Some?
      requires Trim(inputValue) != []
      modifies this`tasks, this`selectedTask, this`inputValue
      ensures Valid()
      ensures IsDuplicate(old(tasks), old(inputValue)) ==>
                && outcome == Alert(DuplicateMessage(old(inputValue)))
                && tasks == old(tasks) && selectedTask == old(selectedTask)
                && inputValue == old(inputValue)
      ensures !IsDuplicate(old(tasks), old(inputValue)) ==>
                var i := FindIndex(old(tasks), old(selectedTask).value.id);
                if i < 0 then
                  && outcome == TypeError
                  && tasks == old(tasks) && selectedTask == old(selectedTask)
                  && inputValue == old(inputValue)
                else
                  && outcome == Done
                  && tasks == old(tasks)[i := Task(old(tasks)[i].id, old(inputValue))]
                  && selectedTask == None && inputValue == []
    {
      if IsDuplicate(tasks, inputValue) {
        outcome := Alert(DuplicateMessage(inputValue));
        return;
      }
      var currentValueIndex := FindIndex(tasks, selectedTask.value.id);
      if currentValueIndex < 0 {
        outcome := TypeError;
        return;
      }
      var currentData := tasks[currentValueIndex];
      var tempArr := tasks[currentValueIndex := Task(currentData.id, inputValue)];
      ReplaceKeepsDistinct(tasks, currentValueIndex, inputValue);
      assert NonBlank(tempArr);
      tasks := tempArr;
      selectedTask := None;
      inputValue := "";
      outcome := Done;
    }

    /** deleteTaskHandler: drop every task with the given id, keeping the
        order of the rest. The selection and the draft are left alone, even
        when the selected task is the one removed. */
    method Delete(task: Task)
      requires Valid()
      modifies this`tasks
      ensures Valid()
      ensures tasks == Without(old(tasks), task.id)
    {
      SubsequenceKeepsDistinct(Without(tasks, task.id), tasks);
      tasks := Without(tasks, task.id);
    }

    /** checkboxHandler: append the tasks with the given id to the completed
        list, in their order, then delete them from the pending list. */
    method Complete(task: Task)
      requires Valid()
      modifies this`tasks, this`completedTask
      ensures Valid()
      ensures completedTask == old(completedTask) + WithId(old(tasks), task.id)
      ensures tasks == Without(old(tasks), task.id)
      ensures multiset(tasks) + multiset(completedTask)
              == old(multiset(tasks) + multiset(completedTask))
    {
      var filteredTasks := WithId(tasks, task.id);
      FiltersPartition(tasks, task.id);
      completedTask := completedTask + filteredTasks;
      Delete(task);
    }

    /** The ToDo and Completed tab buttons. */
    method SelectTab(tab: Tab)
      requires Valid()
      modifies this`currentTab
      ensures Valid()
      ensures currentTab == tab
    {
      currentTab := tab;
    }
  }
}
