/** The duplicate-detection examples of the repository's tests, stated as
    lemmas over the texts they use. */
module Scenarios {
  import opened Text
  import opened Tasks

  // Each test text is a parameter fixed by a `requires` rather than a
  // literal in the `ensures`, so that the solver does not unroll the
  // recursive string functions over the literal character by character.

  lemma DetectsExactDuplicate(text: string, other: string)
    requires text == "Learn React" && other == "Write Tests"
    ensures IsDuplicate([Task(1, text), Task(2, other)], text)
  {
  }

  lemma DetectsCaseInsensitiveDuplicate(text: string, draft: string)
    requires text == "Learn React" && draft == "LEARN REACT"
    ensures IsDuplicate([Task(1, text)], draft)
  {
    LowerSpec(draft);
    LowerSpec(text);
    assert Lower(draft) == Lower(text);
    NormalizeIgnoresCase(draft, text);
    assert SameText(text, draft);
    assert Task(1, text) in [Task(1, text)];
  }

  lemma DetectsPaddedDuplicate(text: string, pad: string, draft: string)
    requires text == "Learn React" && pad == "  " && draft == "  Learn React  "
    ensures IsDuplicate([Task(1, text)], draft)
  {
    assert AllWhitespace(pad);
    assert pad + text + pad == draft;
    NormalizeIgnoresPadding(pad, text, pad);
    assert SameText(text, draft);
    assert Task(1, text) in [Task(1, text)];
  }

  lemma RejectsDifferentText(text: string, draft: string)
    requires text == "Learn React" && draft == "Learn Vue"
    ensures !IsDuplicate([Task(1, text)], draft)
  {
    TrimOfTrimmed(text);
    TrimOfTrimmed(draft);
  }
}

/** Clients of the component, each on a fresh component, stating what the
    user sees. RepeatedAdd, EditToNewText and CompleteOnlyTask replay
    interaction tests; CommitUnchangedEdit and DeleteWhileEditing show
    behaviour of the code that no test covers. */
module Sessions {
  import opened Text
  import opened Tasks
  import opened CrudComponent

  /** Clicking AddTask again with the same text adds nothing more and
      raises the duplicate alert ("prevents duplicate tasks" in
      onTrack/src/testSuites/Crud.test.jsx:24-36). */
  method RepeatedAdd(draft: string, id1: int, id2: int)
    returns (first: Outcome, second: Outcome, tasks: seq<Task>)
    requires Trim(draft) != []
    ensures first == Done && second == Alert(DuplicateMessage(draft))
    ensures tasks == [Task(id1, draft)]
  {
    var c := new Crud();
    c.SetInput(draft);
    first := c.Add(id1);
    c.SetInput(draft);
    AddedIsDuplicate([], id1, draft);
    second := c.Add(id2);
    tasks := c.tasks;
  }

  /** Editing a task and committing the text as loaded is rejected, and the
      selection and the draft stay. */
  method CommitUnchangedEdit(draft: string, id: int)
    returns (outcome: Outcome, tasks: seq<Task>, selected: Option<Task>, input: string)
    requires Trim(draft) != []
    ensures outcome == Alert(DuplicateMessage(draft))
    ensures tasks == [Task(id, draft)] && selected == Some(Task(id, draft)) && input == draft
  {
    var c := new Crud();
    c.SetInput(draft);
    var added := c.Add(id);
    c.BeginEdit(c.tasks[0]);
    OwnTextIsDuplicate(c.tasks, c.tasks[0]);
    outcome := c.Update();
    tasks, selected, input := c.tasks, c.selectedTask, c.inputValue;
  }

  /** Editing a task to a new text keeps its id and position and ends the
      edit. */
  method EditToNewText(original: string, updated: string, id: int)
    returns (outcome: Outcome, tasks: seq<Task>, selected: Option<Task>, input: string)
    requires Trim(original) != [] && Trim(updated) != []
    requires !SameText(original, updated)
    ensures outcome == Done
    ensures tasks == [Task(id, updated)] && selected == None && input == []
  {
    var c := new Crud();
    c.SetInput(original);
    var added := c.Add(id);
    c.BeginEdit(c.tasks[0]);
    c.SetInput(updated);
    outcome := c.Update();
    tasks, selected, input := c.tasks, c.selectedTask, c.inputValue;
  }

  /** Deleting the task being edited leaves it selected, and committing a
      new text then throws. */
  method DeleteWhileEditing(draft: string, next: string, id: int)
    returns (outcome: Outcome)
    requires Trim(draft) != [] && Trim(next) != []
    ensures outcome == TypeError
  {
    var c := new Crud();
    c.SetInput(draft);
    var added := c.Add(id);
    var task := c.tasks[0];
    c.BeginEdit(task);
    c.Delete(task);
    c.SetInput(next);
    outcome := c.Update();
  }

  /** Ticking a task's checkbox moves it from the pending list to the
      completed list. */
  method CompleteOnlyTask(draft: string, id: int)
    returns (pending: seq<Task>, completed: seq<Task>)
    requires Trim(draft) != []
    ensures pending == [] && completed == [Task(id, draft)]
  {
    var c := new Crud();
    c.SetInput(draft);
    var added := c.Add(id);
    c.Complete(c.tasks[0]);
    pending, completed := c.tasks, c.completedTask;
  }
}
