/**
 The task record of the to-do list and the draft that the form hands to the
 store, together with the predicates about a task collection (which ids it
 holds, whether they are unique) that the store's operations are stated with.
 */
module Tasks {

  /** An optional value; `None` is an absent (undefined) property. */
  datatype Option<+T> = None | Some(value: T)

  /** The priorities the list logic and the task card actually use. */
  datatype Priority = Low | Medium | High

  /** The two states a task can be in. */
  datatype Status = Pending | Completed

  /** One to-do item. `id` and `createdAt` are assigned when the task is created. */
  datatype Task = Task(
    id: string,
    title: string,
    description: string,
    priority: Priority,
    status: Status,
    createdAt: string,
    image: Option<string>)

  /**
   The fields a caller supplies when creating or editing a task: everything
   but `id` and `createdAt`. `image == None` means the property is absent, so
   an object spread of the draft leaves the target's image alone.
   */
  datatype Draft = Draft(
    title: string,
    description: string,
    priority: Priority,
    status: Status,
    image: Option<string>)

  /** The id column of a collection, in order. */
  function Ids(ts: seq<Task>): (r: seq<string>)
    ensures |r| == |ts|
    ensures forall i :: 0 <= i < |ts| ==> r[i] == ts[i].id
  {
    seq(|ts|, i requires 0 <= i < |ts| => ts[i].id)
  }

  /** Some task of the collection carries `id`. */
  predicate HasId(ts: seq<Task>, id: string) {
    exists i :: 0 <= i < |ts| && ts[i].id == id
  }

  /** No two tasks of the collection share an id. */
  predicate UniqueIds(ts: seq<Task>) {
    forall i, j :: 0 <= i < j < |ts| ==> ts[i].id != ts[j].id
  }

  /** How many tasks of the collection carry `id`. */
  function CountId(ts: seq<Task>, id: string): nat {
    if ts == [] then 0
    else (if ts[0].id == id then 1 else 0) + CountId(ts[1..], id)
  }

  /** `a` is `b` with some elements dropped and the rest kept in order. */
  predicate IsSubsequence(a: seq<Task>, b: seq<Task>)
    decreases |b|
  {
    if a == [] then true
    else if b == [] then false
    else (a[0] == b[0] && IsSubsequence(a[1..], b[1..])) || IsSubsequence(a, b[1..])
  }

  /** A non-empty collection has unique ids exactly when its tail does and its head's id is not in the tail. */
  lemma UniqueIdsCons(ts: seq<Task>)
    requires ts != []
    ensures UniqueIds(ts) <==> UniqueIds(ts[1..]) && !HasId(ts[1..], ts[0].id)
  {
  }

  /** A collection holds `id` exactly when it counts at least one task with it. */
  lemma {:induction false} CountIdPositive(ts: seq<Task>, id: string)
    ensures CountId(ts, id) > 0 <==> HasId(ts, id)
  {
    if ts != [] {
      CountIdPositive(ts[1..], id);
      if HasId(ts, id) && ts[0].id != id {
        var i :| 0 <= i < |ts| && ts[i].id == id;
        assert ts[1..][i - 1].id == id;
      }
      if HasId(ts[1..], id) {
        var i :| 0 <= i < |ts[1..]| && ts[1..][i].id == id;
        assert ts[i + 1].id == id;
      }
    }
  }

  /** In a collection with unique ids, an id that is present is counted exactly once. */
  lemma {:induction false} CountIdUnique(ts: seq<Task>, id: string)
    requires UniqueIds(ts)
    ensures CountId(ts, id) == if HasId(ts, id) then 1 else 0
  {
    CountIdPositive(ts, id);
    if ts != [] {
      UniqueIdsCons(ts);
      CountIdUnique(ts[1..], id);
      CountIdPositive(ts[1..], id);
    }
  }
}
