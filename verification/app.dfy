/**
 The application component: the task collection and the task being edited,
 the user actions that change them, and the local-storage copy that is
 rewritten after every change. The browser store is a string-keyed map; the
 serialisation to text is left out, so a saved collection loads back as itself.
 */
module App {
  import opened Tasks
  import opened TaskList

  /** The key the collection is stored under. */
  const StorageKey: string := "tasks"

  /** The browser's key-value store, with each value already parsed. */
  type Store = map<string, seq<Task>>

  /** Reads the collection; a store without the key loads as an empty collection. */
  function Load(store: Store): (r: seq<Task>)
    ensures StorageKey !in store ==> r == []
    ensures StorageKey in store ==> r == store[StorageKey]
  {
    if StorageKey in store then store[StorageKey] else []
  }

  /** Writes the whole collection under the storage key and leaves every other key alone. */
  function Save(store: Store, ts: seq<Task>): (r: Store)
    ensures Load(r) == ts
    ensures forall k :: k in r <==> k in store || k == StorageKey
    ensures forall k :: k in store && k != StorageKey ==> r[k] == store[k]
  {
    store[StorageKey := ts]
  }

  /** The component's state: the collection and the task open in the form, if any. */
  datatype State = State(tasks: seq<Task>, editing: Option<Task>)

  /** What the user can do. `Submit` carries the fresh id and the clock reading an add would use. */
  datatype Action =
    | Submit(draft: Draft, freshId: string, now: string)
    | StartEdit(task: Task)
    | CancelEdit
    | Delete(id: string)
    | Toggle(id: string)

  /** The state on mount: the stored collection and nothing being edited. */
  function Init(store: Store): (s: State)
    ensures s.tasks == Load(store)
    ensures s.editing.None?
  {
    State(Load(store), None)
  }

  /** An add uses an id the collection does not hold yet; other actions need nothing. */
  predicate Fresh(s: State, a: Action) {
    a.Submit? && s.editing.None? ==> !HasId(s.tasks, a.freshId)
  }

  /**
   One user action. A submit edits when a task is open in the form and adds
   otherwise, and closes the form either way.
   */
  function Step(s: State, a: Action): (r: State)
    ensures a.Submit? || a.CancelEdit? ==> r.editing.None?
    ensures a.StartEdit? ==> r.tasks == s.tasks && r.editing == Some(a.task)
    ensures a.Submit? && s.editing.None? ==>
      |r.tasks| == |s.tasks| + 1 && r.tasks[1..] == s.tasks &&
      r.tasks[0].id == a.freshId && r.tasks[0].createdAt == a.now && r.tasks[0].status == Pending
    ensures a.Submit? && s.editing.None? ==> r.tasks[0] == NewTask(a.draft, a.freshId, a.now)
    ensures a.Submit? && s.editing.Some? ==>
      && |r.tasks| == |s.tasks| && Ids(r.tasks) == Ids(s.tasks)
      && (forall i :: 0 <= i < |s.tasks| && s.tasks[i].id != s.editing.value.id ==> r.tasks[i] == s.tasks[i])
      && (forall i :: 0 <= i < |s.tasks| && s.tasks[i].id == s.editing.value.id ==>
            r.tasks[i] == Merge(s.tasks[i], a.draft))
    ensures a.CancelEdit? ==> r.tasks == s.tasks
    ensures a.Delete? ==>
      && r.editing == s.editing && !HasId(r.tasks, a.id)
      && |r.tasks| == |s.tasks| - CountId(s.tasks, a.id)
      && (forall t :: t in r.tasks <==> t in s.tasks && t.id != a.id)
      && IsSubsequence(r.tasks, s.tasks)
    ensures a.Toggle? ==>
      && r.editing == s.editing && |r.tasks| == |s.tasks|
      && (forall i :: 0 <= i < |s.tasks| && s.tasks[i].id != a.id ==> r.tasks[i] == s.tasks[i])
      && (forall i :: 0 <= i < |s.tasks| && s.tasks[i].id == a.id ==>
            r.tasks[i] == s.tasks[i].(status := ToggleStatus(s.tasks[i].status)))
    ensures UniqueIds(s.tasks) && Fresh(s, a) ==> UniqueIds(r.tasks)
  {
    match a
    case Submit(d, id, now) =>
      if s.editing.Some? then
        EditUniqueIds(s.tasks, s.editing, d);
        State(EditTask(s.tasks, s.editing, d), None)
      else
        AddUniqueIds(s.tasks, d, id, now);
        State(AddTask(s.tasks, d, id, now), None)
    case StartEdit(t) => s.(editing := Some(t))
    case CancelEdit => s.(editing := None)
    case Delete(id) =>
      DeleteUniqueIds(s.tasks, id);
      DeleteMembers(s.tasks, id);
      DeleteKeepsOrder(s.tasks, id);
      s.(tasks := DeleteById(s.tasks, id))
    case Toggle(id) =>
      ToggleUniqueIds(s.tasks, id);
      s.(tasks := ToggleById(s.tasks, id))
  }

  /** The running application: its state and the store. */
  datatype Session = Session(state: State, store: Store)

  /** Ids are unique and the store holds exactly the current collection. */
  predicate Consistent(x: Session) {
    UniqueIds(x.state.tasks) && Load(x.store) == x.state.tasks
  }

  /** Mounting: load the collection, then save it back as the first effect does. */
  function Start(store: Store): (x: Session)
    ensures x.state.tasks == Load(store) && x.state.editing.None?
    ensures Load(x.store) == x.state.tasks
    ensures forall k :: k in store ==> k in x.store && x.store[k] == store[k]
    ensures UniqueIds(Load(store)) ==> Consistent(x)
  {
    var s := Init(store);
    Session(s, Save(store, s.tasks))
  }

  /** One action followed by the save of the resulting collection. */
  function Dispatch(x: Session, a: Action): (y: Session)
    ensures y.state == Step(x.state, a)
    ensures Load(y.store) == y.state.tasks
    ensures forall k :: k in x.store && k != StorageKey ==> k in y.store && y.store[k] == x.store[k]
    ensures Consistent(x) && Fresh(x.state, a) ==> Consistent(y)
  {
    var s := Step(x.state, a);
    Session(s, Save(x.store, s.tasks))
  }

  /** Every add in the action sequence uses an id absent from the collection at that moment. */
  predicate AllFresh(s: State, actions: seq<Action>)
    decreases |actions|
  {
    actions == [] || (Fresh(s, actions[0]) && AllFresh(Step(s, actions[0]), actions[1..]))
  }

  /** A sequence of actions, each followed by its save. */
  function Run(x: Session, actions: seq<Action>): (y: Session)
    ensures Consistent(x) && AllFresh(x.state, actions) ==> Consistent(y)
    ensures actions != [] ==> Load(y.store) == y.state.tasks
    decreases |actions|
  {
    if actions == [] then x else Run(Dispatch(x, actions[0]), actions[1..])
  }

  /**
   A task deleted while open in the form: submitting the form afterwards
   finds no task to edit, so the collection stays as the delete left it.
   */
  lemma SubmitAfterDeleteIsNoop(s: State, t: Task, d: Draft, id: string, now: string)
    requires s.editing == Some(t)
    ensures var s1 := Step(s, Delete(t.id));
      Step(s1, Submit(d, id, now)) == State(s1.tasks, None)
  {
  }

  /**
   Starting from an empty store: adding "Buy milk" gives one pending task,
   toggling it completes it, and deleting it empties the list again, with the
   store following each step.
   */
  lemma BuyMilkScenario(store: Store, id: string, now: string)
    requires StorageKey !in store
    ensures var x0 := Start(store);
      var d := Draft("Buy milk", "", Medium, Pending, None);
      var x1 := Dispatch(x0, Submit(d, id, now));
      var x2 := Dispatch(x1, Toggle(id));
      var x3 := Dispatch(x2, Delete(id));
      && |x1.state.tasks| == 1 && x1.state.tasks[0].status == Pending
      && x2.state.tasks == [x1.state.tasks[0].(status := Completed)]
      && x3.state.tasks == [] && Load(x3.store) == []
  {
  }
}
