/**
 The four list transformations the application applies to its task
 collection (add, edit, delete, toggle), each a pure function from the old
 collection to the new one, and the lemmas relating them.
 */
module TaskList {
  import opened Tasks

  /** Flips a task's status: pending becomes completed and completed becomes pending. */
  function ToggleStatus(s: Status): (r: Status)
    ensures r != s
  {
    if s == Completed then Pending else Completed
  }

  /** Flipping a status twice gives back the original status. */
  lemma ToggleStatusInvolution(s: Status)
    ensures ToggleStatus(ToggleStatus(s)) == s
  {
  }

  // ---------------------------------------------------------------- add

  /**
   The task built from a draft: the draft's fields, then the fresh id and the
   creation time, with the status forced to pending whatever the draft said.
   */
  function NewTask(d: Draft, id: string, createdAt: string): (t: Task)
    ensures t.id == id && t.createdAt == createdAt
    ensures t.status == Pending
    ensures t.title == d.title && t.description == d.description
    ensures t.priority == d.priority && t.image == d.image
  {
    Task(id, d.title, d.description, d.priority, Pending, createdAt, d.image)
  }

  /** Prepends the task built from `d`; the new task comes first (newest first). */
  function AddTask(ts: seq<Task>, d: Draft, id: string, createdAt: string): (r: seq<Task>)
    ensures |r| == |ts| + 1
    ensures r[0].id == id && r[0].createdAt == createdAt && r[0].status == Pending
    ensures r[0].title == d.title && r[0].description == d.description
    ensures r[0].priority == d.priority && r[0].image == d.image
    ensures r[1..] == ts
  {
    [NewTask(d, id, createdAt)] + ts
  }

  /** Adding keeps ids unique exactly when the old ids were unique and the new id is fresh. */
  lemma AddUniqueIds(ts: seq<Task>, d: Draft, id: string, createdAt: string)
    ensures UniqueIds(AddTask(ts, d, id, createdAt)) <==> UniqueIds(ts) && !HasId(ts, id)
  {
  }

  // ---------------------------------------------------------------- edit

  /**
   The object spread `{ ...t, ...d }`: every field the draft carries
   overrides the task's; `id` and `createdAt`, which a draft never carries,
   and an image the draft leaves absent keep the task's values.
   */
  function Merge(t: Task, d: Draft): (r: Task)
    ensures r.id == t.id && r.createdAt == t.createdAt
    ensures r.title == d.title && r.description == d.description
    ensures r.priority == d.priority && r.status == d.status
    ensures d.image.Some? ==> r.image == d.image
    ensures d.image.None? ==> r.image == t.image
  {
    t.(title := d.title, description := d.description, priority := d.priority,
       status := d.status, image := if d.image.Some? then d.image else t.image)
  }

  /** Merging the same draft twice is the same as merging it once. */
  lemma MergeIdempotent(t: Task, d: Draft)
    ensures Merge(Merge(t, d), d) == Merge(t, d)
  {
  }

  /** Replaces every task whose id is `target` by its merge with `d`; the rest stay as they are. */
  function EditById(ts: seq<Task>, target: string, d: Draft): (r: seq<Task>)
    ensures |r| == |ts|
    ensures forall i :: 0 <= i < |ts| && ts[i].id != target ==> r[i] == ts[i]
    ensures forall i :: 0 <= i < |ts| && ts[i].id == target ==> r[i] == Merge(ts[i], d)
  {
    if ts == [] then []
    else
      var rest := EditById(ts[1..], target, d);
      var r := [EditOne(ts[0], target, d)] + rest;
      assert r[1..] == rest;
      r
  }

  /** One step of the edit map: the merge when the id matches, the task itself otherwise. */
  function EditOne(t: Task, target: string, d: Draft): (r: Task)
    ensures r.id == t.id
    ensures t.id != target ==> r == t
    ensures t.id == target ==> r == Merge(t, d)
  {
    if t.id == target then Merge(t, d) else t
  }

  /**
   Submitting the edit form: with no task being edited nothing changes;
   otherwise the tasks matching the edited task's id take the draft's fields.
   */
  function EditTask(ts: seq<Task>, editing: Option<Task>, d: Draft): (r: seq<Task>)
    ensures |r| == |ts|
    ensures Ids(r) == Ids(ts)
    ensures editing.None? || !HasId(ts, editing.value.id) ==> r == ts
    ensures forall i :: 0 <= i < |ts| ==> r[i].createdAt == ts[i].createdAt
    ensures editing.Some? ==>
      forall i :: 0 <= i < |ts| && ts[i].id == editing.value.id ==>
        r[i].title == d.title && r[i].description == d.description &&
        r[i].priority == d.priority && r[i].status == d.status
    ensures editing.Some? ==>
      forall i :: 0 <= i < |ts| && ts[i].id != editing.value.id ==> r[i] == ts[i]
    ensures editing.Some? ==>
      forall i :: 0 <= i < |ts| && ts[i].id == editing.value.id ==> r[i] == Merge(ts[i], d)
  {
    match editing
    case None => ts
    case Some(e) =>
      var r := EditById(ts, e.id, d);
      assert forall i :: 0 <= i < |ts| ==> r[i].id == ts[i].id;
      r
  }

  /** Editing neither adds nor removes ids, so it keeps them unique exactly when they were. */
  lemma EditUniqueIds(ts: seq<Task>, editing: Option<Task>, d: Draft)
    ensures UniqueIds(EditTask(ts, editing, d)) <==> UniqueIds(ts)
  {
  }

  /** Submitting the same draft for the same task twice changes nothing the second time. */
  lemma EditIdempotent(ts: seq<Task>, target: string, d: Draft)
    ensures EditById(EditById(ts, target, d), target, d) == EditById(ts, target, d)
  {
  }

  // ---------------------------------------------------------------- delete

  /** Keeps the tasks whose id differs from `id`, in their original order. */
  function DeleteById(ts: seq<Task>, id: string): (r: seq<Task>)
    ensures !HasId(r, id)
    ensures |r| == |ts| - CountId(ts, id)
  {
    if ts == [] then []
    else if ts[0].id == id then DeleteById(ts[1..], id)
    else [ts[0]] + DeleteById(ts[1..], id)
  }

  /** The survivors of a delete appear in the same relative order as before. */
  lemma {:induction false} DeleteKeepsOrder(ts: seq<Task>, id: string)
    ensures IsSubsequence(DeleteById(ts, id), ts)
  {
    if ts != [] {
      DeleteKeepsOrder(ts[1..], id);
      var rest := DeleteById(ts[1..], id);
      if ts[0].id != id {
        assert ([ts[0]] + rest)[1..] == rest;
      }
    }
  }

  /** A task survives a delete exactly when it was in the collection with another id. */
  lemma {:induction false} DeleteMembers(ts: seq<Task>, id: string)
    ensures forall t :: t in DeleteById(ts, id) <==> t in ts && t.id != id
  {
    if ts != [] {
      DeleteMembers(ts[1..], id);
      assert ts == [ts[0]] + ts[1..];
    }
  }

  /** Deleting an id that no task carries leaves the collection as it was. */
  lemma {:induction false} DeleteAbsent(ts: seq<Task>, id: string)
    requires !HasId(ts, id)
    ensures DeleteById(ts, id) == ts
  {
    if ts != [] {
      assert ts[0].id != id;
      assert !HasId(ts[1..], id) by {
        forall i | 0 <= i < |ts[1..]| ensures ts[1..][i].id != id {
          assert ts[1..][i] == ts[i + 1];
        }
      }
      DeleteAbsent(ts[1..], id);
    }
  }

  /** With unique ids, deleting removes one task when the id is present and none otherwise. */
  lemma DeleteUniqueLength(ts: seq<Task>, id: string)
    requires UniqueIds(ts)
    ensures |DeleteById(ts, id)| == if HasId(ts, id) then |ts| - 1 else |ts|
  {
    CountIdUnique(ts, id);
  }

  /** Deleting the same id twice is the same as deleting it once. */
  lemma DeleteIdempotent(ts: seq<Task>, id: string)
    ensures DeleteById(DeleteById(ts, id), id) == DeleteById(ts, id)
  {
  }

  /** Deleting from a concatenation deletes from each part separately, so order is kept. */
  lemma {:induction false} DeleteAppend(a: seq<Task>, b: seq<Task>, id: string)
    ensures DeleteById(a + b, id) == DeleteById(a, id) + DeleteById(b, id)
  {
    if a != [] {
      assert (a + b)[0] == a[0];
      assert (a + b)[1..] == a[1..] + b;
      DeleteAppend(a[1..], b, id);
    } else {
      assert a + b == b;
    }
  }

  /** In a collection with unique ids, deleting the first task's id removes just the first task. */
  lemma DeleteUniqueHead(ts: seq<Task>)
    requires UniqueIds(ts)
    requires ts != []
    ensures DeleteById(ts, ts[0].id) == ts[1..]
  {
    UniqueIdsCons(ts);
    DeleteAbsent(ts[1..], ts[0].id);
  }

  /**
   In a collection with unique ids, deleting the id of the task at position
   `k` removes exactly that position.
   */
  lemma {:induction false} DeleteUniqueRemovesOne(ts: seq<Task>, k: nat)
    requires UniqueIds(ts)
    requires k < |ts|
    ensures DeleteById(ts, ts[k].id) == ts[..k] + ts[k + 1..]
  {
    if k == 0 {
      DeleteUniqueHead(ts);
      assert ts[..0] + ts[1..] == ts[1..];
    } else {
      var id := ts[k].id;
      var tail := ts[1..];
      assert UniqueIds(tail) && ts[0].id != id by {
        UniqueIdsCons(ts);
      }
      assert tail[k - 1] == ts[k];
      DeleteUniqueRemovesOne(tail, k - 1);
      assert [ts[0]] + tail[..k - 1] == ts[..k];
      assert tail[k..] == ts[k + 1..];
    }
  }

  /** Deleting keeps unique ids unique. */
  lemma {:induction false} DeleteUniqueIds(ts: seq<Task>, id: string)
    ensures UniqueIds(ts) ==> UniqueIds(DeleteById(ts, id))
  {
    if ts != [] && UniqueIds(ts) {
      var tail := ts[1..];
      UniqueIdsCons(ts);
      DeleteUniqueIds(tail, id);
      if ts[0].id != id {
        var r := DeleteById(ts, id);
        var rest := DeleteById(tail, id);
        assert r[1..] == rest;
        assert !HasId(rest, ts[0].id) by {
          DeleteMembers(tail, id);
          forall i | 0 <= i < |rest| ensures rest[i].id != ts[0].id {
            assert rest[i] in tail;
          }
        }
        UniqueIdsCons(r);
      }
    }
  }

  // ---------------------------------------------------------------- toggle

  /** Flips the status of every task whose id is `id`; nothing else changes. */
  function ToggleById(ts: seq<Task>, id: string): (r: seq<Task>)
    ensures |r| == |ts|
    ensures forall i :: 0 <= i < |ts| && ts[i].id != id ==> r[i] == ts[i]
    ensures forall i :: 0 <= i < |ts| && ts[i].id == id ==>
      r[i].status != ts[i].status && r[i] == ts[i].(status := r[i].status)
    ensures Ids(r) == Ids(ts)
  {
    if ts == [] then []
    else
      var t := ts[0];
      [if t.id == id then t.(status := ToggleStatus(t.status)) else t] + ToggleById(ts[1..], id)
  }

  /** Toggling neither adds nor removes ids, so it keeps them unique exactly when they were. */
  lemma ToggleUniqueIds(ts: seq<Task>, id: string)
    ensures UniqueIds(ToggleById(ts, id)) <==> UniqueIds(ts)
  {
  }

  /** Toggling an id that no task carries leaves the collection as it was. */
  lemma ToggleAbsent(ts: seq<Task>, id: string)
    requires !HasId(ts, id)
    ensures ToggleById(ts, id) == ts
  {
  }

  /** Toggling the same id twice restores the original collection. */
  lemma ToggleTwice(ts: seq<Task>, id: string)
    ensures ToggleById(ToggleById(ts, id), id) == ts
  {
  }

  /** Toggling two ids gives the same collection in either order. */
  lemma ToggleCommutes(ts: seq<Task>, a: string, b: string)
    ensures ToggleById(ToggleById(ts, a), b) == ToggleById(ToggleById(ts, b), a)
  {
  }
}
