/** Task records and the array operations the handlers apply to the task
    list: the duplicate test (`some`), `findIndex` and the two `filter`s. */
module Tasks {
  import opened Text

  /** A to-do item. The id is the creation timestamp in the source; here it
      is whatever the caller supplies, and nothing assumes it is unique. */
  datatype Task = Task(id: int, text: string)

  /** Two texts count as the same task when their keys agree. */
  predicate SameText(a: string, b: string) {
    Normalize(a) == Normalize(b)
  }

  /** duplicateTaskHandler: does some task have the draft's key? */
  function IsDuplicate(tasks: seq<Task>, draft: string): (r: bool)
    ensures r <==> exists t :: t in tasks && SameText(t.text, draft)
  {
    if tasks == [] then false
    else SameText(tasks[0].text, draft) || IsDuplicate(tasks[1..], draft)
  }

  /** Array.prototype.findIndex on the id: the first position holding `id`,
      or -1 when there is none. */
  function FindIndex(tasks: seq<Task>, id: int): (i: int)
    ensures -1 <= i < |tasks|
    ensures i == -1 <==> forall k :: 0 <= k < |tasks| ==> tasks[k].id != id
    ensures 0 <= i ==> tasks[i].id == id && forall k :: 0 <= k < i ==> tasks[k].id != id
  {
    if tasks == [] then -1
    else if tasks[0].id == id then 0
    else
      var j := FindIndex(tasks[1..], id);
      if j < 0 then -1 else j + 1
  }

  /** `r` keeps some of the elements of `s`, in their order. */
  predicate IsSubsequence(r: seq<Task>, s: seq<Task>) {
    if r == [] then true
    else if s == [] then false
    else (r[0] == s[0] && IsSubsequence(r[1..], s[1..])) || IsSubsequence(r, s[1..])
  }

  /** `tasks.filter(p => p.id != id)`: the tasks with another id, in order.
      Subsequence and membership alone would admit dropping a repeated
      task; FiltersPartition fixes the counts, so every occurrence is kept. */
  function Without(tasks: seq<Task>, id: int): (r: seq<Task>)
    ensures IsSubsequence(r, tasks)
    ensures forall t :: t in r ==> t in tasks && t.id != id
    ensures forall t :: t in tasks && t.id != id ==> t in r
  {
    if tasks == [] then []
    else if tasks[0].id != id then [tasks[0]] + Without(tasks[1..], id)
    else Without(tasks[1..], id)
  }

  /** `tasks.filter(p => p.id == id)`: the tasks with this id, in order,
      every occurrence kept (see FiltersPartition). */
  function WithId(tasks: seq<Task>, id: int): (r: seq<Task>)
    ensures IsSubsequence(r, tasks)
    ensures forall t :: t in r ==> t in tasks && t.id == id
    ensures forall t :: t in tasks && t.id == id ==> t in r
  {
    if tasks == [] then []
    else if tasks[0].id == id then [tasks[0]] + WithId(tasks[1..], id)
    else WithId(tasks[1..], id)
  }

  /** The two filters split the list: nothing is lost or duplicated. */
  lemma {:induction false} FiltersPartition(tasks: seq<Task>, id: int)
    ensures multiset(Without(tasks, id)) + multiset(WithId(tasks, id)) == multiset(tasks)
    ensures |Without(tasks, id)| + |WithId(tasks, id)| == |tasks|
  {
    if tasks != [] {
      FiltersPartition(tasks[1..], id);
      assert tasks == [tasks[0]] + tasks[1..];
    }
  }

  /** Filtering out an id that no task has changes nothing. */
  lemma {:induction false} WithoutAbsent(tasks: seq<Task>, id: int)
    requires forall k :: 0 <= k < |tasks| ==> tasks[k].id != id
    ensures Without(tasks, id) == tasks
  {
    if tasks != [] {
      WithoutAbsent(tasks[1..], id);
    }
  }

  /** The invariant of the task list: no two tasks share a key. */
  predicate DistinctTexts(tasks: seq<Task>) {
    forall i, j :: 0 <= i < j < |tasks| ==> !SameText(tasks[i].text, tasks[j].text)
  }

  /** No task's text trims to the empty string. */
  predicate NonBlank(tasks: seq<Task>) {
    forall t :: t in tasks ==> Trim(t.text) != []
  }

  lemma {:induction false} SubsequenceMembers(r: seq<Task>, s: seq<Task>)
    requires IsSubsequence(r, s)
    ensures forall t :: t in r ==> t in s
  {
    if r != [] && s != [] {
      if r[0] == s[0] && IsSubsequence(r[1..], s[1..]) {
        SubsequenceMembers(r[1..], s[1..]);
        assert r == [r[0]] + r[1..];
      } else {
        SubsequenceMembers(r, s[1..]);
      }
    }
  }

  lemma DistinctTail(s: seq<Task>)
    requires s != [] && DistinctTexts(s)
    ensures DistinctTexts(s[1..])
    ensures forall t :: t in s[1..] ==> !SameText(s[0].text, t.text)
  {
  }

  lemma DistinctFromHead(s: seq<Task>)
    requires s != [] && DistinctTexts(s[1..])
    requires forall t :: t in s[1..] ==> !SameText(s[0].text, t.text)
    ensures DistinctTexts(s)
  {
  }

  /** Keeping only some of the tasks keeps their keys distinct. */
  lemma {:induction false} SubsequenceKeepsDistinct(r: seq<Task>, s: seq<Task>)
    requires IsSubsequence(r, s) && DistinctTexts(s)
    ensures DistinctTexts(r)
  {
    if r != [] && s != [] {
      DistinctTail(s);
      if r[0] == s[0] && IsSubsequence(r[1..], s[1..]) {
        SubsequenceKeepsDistinct(r[1..], s[1..]);
        SubsequenceMembers(r[1..], s[1..]);
        DistinctFromHead(r);
      } else {
        SubsequenceKeepsDistinct(r, s[1..]);
      }
    }
  }

  /** Appending a task whose text is not a duplicate keeps keys distinct. */
  lemma AppendKeepsDistinct(tasks: seq<Task>, t: Task)
    requires DistinctTexts(tasks) && !IsDuplicate(tasks, t.text)
    ensures DistinctTexts(tasks + [t])
  {
    var s := tasks + [t];
    forall i, j | 0 <= i < j < |s| ensures !SameText(s[i].text, s[j].text) {
      assert s[i] == tasks[i];
      if j == |tasks| {
        assert s[i] in tasks;
      } else {
        assert s[j] == tasks[j];
      }
    }
  }

  /** Giving one task a text that is not a duplicate of any task, itself
      included, keeps keys distinct; its id and every other task stay. */
  lemma ReplaceKeepsDistinct(tasks: seq<Task>, i: nat, text: string)
    requires DistinctTexts(tasks) && !IsDuplicate(tasks, text) && i < |tasks|
    ensures DistinctTexts(tasks[i := Task(tasks[i].id, text)])
  {
    var s := tasks[i := Task(tasks[i].id, text)];
    forall a, b | 0 <= a < b < |s| ensures !SameText(s[a].text, s[b].text) {
      if a == i {
        assert tasks[b] in tasks;
      } else if b == i {
        assert tasks[a] in tasks;
      }
    }
  }

  /** Committing any task's current text is a duplicate, so an edit that
      leaves the text as loaded is always rejected. */
  lemma OwnTextIsDuplicate(tasks: seq<Task>, t: Task)
    requires t in tasks
    ensures IsDuplicate(tasks, t.text)
  {
  }

  /** A draft differing from a task's text only in letter case, or in
      surrounding whitespace, is a duplicate. */
  lemma VariantIsDuplicate(tasks: seq<Task>, t: Task, p: string, draft: string, q: string)
    requires t in tasks
    requires AllWhitespace(p) && AllWhitespace(q) && Lower(draft) == Lower(t.text)
    ensures IsDuplicate(tasks, p + draft + q)
  {
    NormalizeIgnoresPadding(p, draft, q);
    NormalizeIgnoresCase(draft, t.text);
    assert SameText(t.text, p + draft + q);
  }

  /** Once a draft has been added, adding it again is a duplicate. */
  lemma AddedIsDuplicate(tasks: seq<Task>, id: int, draft: string)
    ensures IsDuplicate(tasks + [Task(id, draft)], draft)
  {
  }
}
