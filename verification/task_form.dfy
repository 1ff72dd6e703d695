/**
 The part of the task form that decides what reaches the store: the three
 editable fields, their defaults, how they are pre-filled for an edit, and
 the draft a submit hands over.
 */
module TaskForm {
  import opened Tasks
  import opened TaskList

  /** The form's editable fields. */
  datatype Fields = Fields(title: string, description: string, priority: Priority)

  /** An empty form; the priority selector starts on medium. */
  const Blank: Fields := Fields("", "", Medium)

  /** Opening a task for editing copies its title, description and priority into the form. */
  function Prefill(t: Task): (f: Fields)
    ensures f.title == t.title && f.description == t.description && f.priority == t.priority
  {
    Fields(t.title, t.description, t.priority)
  }

  /**
   The draft a submit produces: the three fields, status always pending and
   no image property.
   */
  function Submit(f: Fields): (d: Draft)
    ensures d.title == f.title && d.description == f.description && d.priority == f.priority
    ensures d.status == Pending
    ensures d.image.None?
  {
    Draft(f.title, f.description, f.priority, Pending, None)
  }

  /** After a submit the fields are cleared when adding and kept when editing. */
  function AfterSubmit(f: Fields, editing: bool): (g: Fields)
    ensures editing ==> g == f
    ensures !editing ==> g.title == [] && g.description == [] && g.priority == Medium
  {
    if editing then f else Blank
  }

  /** The keys of the task card's priority colour table. */
  const ColourTableKeys: seq<string> := ["low", "medium", "high"]

  /** The text value a priority carries in the task record; it is always a key of the colour table. */
  function PriorityName(p: Priority): (r: string)
    ensures r in ColourTableKeys
  {
    match p
    case Low => "low"
    case Medium => "medium"
    case High => "high"
  }

  /** Different priorities carry different names, so the colour table tells them apart. */
  lemma PriorityNameInjective(p: Priority, q: Priority)
    ensures PriorityName(p) == PriorityName(q) <==> p == q
  {
  }

  /** Reads a selector value back as a priority; a value no priority carries reads as `None`. */
  function ParsePriority(v: string): (r: Option<Priority>)
    ensures r.Some? ==> PriorityName(r.value) == v
    ensures forall p :: PriorityName(p) == v ==> r == Some(p)
  {
    if v == "low" then Some(Low)
    else if v == "medium" then Some(Medium)
    else if v == "high" then Some(High)
    else None
  }

  /** Every priority's name parses back to that priority. */
  lemma ParsePriorityName(p: Priority)
    ensures ParsePriority(PriorityName(p)) == Some(p)
  {
  }

  /** The values of the priority selector's three options as the form writes them. */
  const SelectorValuesAsWritten: seq<string> := ["low", "medium", "alto"]

  /** The values of the priority selector's three options, one per priority. */
  const SelectorValues: seq<string> := ["low", "medium", "high"]

  /** Choosing the third option of the form as written yields a value that names no priority. */
  lemma AsWrittenHighOptionNamesNoPriority()
    ensures |SelectorValuesAsWritten| == 3
    ensures ParsePriority(SelectorValuesAsWritten[2]).None?
    ensures forall p :: PriorityName(p) != SelectorValuesAsWritten[2]
  {
  }

  /** Each option of the corrected selector names a priority, and each priority has an option. */
  lemma SelectorValuesArePriorities()
    ensures forall i :: 0 <= i < |SelectorValues| ==> ParsePriority(SelectorValues[i]).Some?
    ensures forall p :: PriorityName(p) in SelectorValues
  {
    assert SelectorValues[0] == PriorityName(Low);
    assert SelectorValues[1] == PriorityName(Medium);
    assert SelectorValues[2] == PriorityName(High);
  }

  /** Picking option `i` of the corrected selector sets the form's priority to the one it names. */
  function ChoosePriority(f: Fields, i: nat): (g: Fields)
    requires i < |SelectorValues|
    ensures g.title == f.title && g.description == f.description
    ensures PriorityName(g.priority) == SelectorValues[i]
  {
    SelectorValuesArePriorities();
    f.(priority := ParsePriority(SelectorValues[i]).value)
  }

  /**
   Saving an edit without touching the form gives back every matching task
   with its status reset to pending and every other field as it was.
   */
  lemma UnchangedEditResetsStatus(ts: seq<Task>, t: Task)
    ensures forall i :: 0 <= i < |ts| && ts[i] == t ==>
      EditTask(ts, Some(t), Submit(Prefill(t)))[i] == t.(status := Pending)
  {
  }

  /** A form-built draft edit leaves every matched task pending, with its id and creation time kept. */
  lemma FormEditSetsPending(ts: seq<Task>, editing: Task, f: Fields)
    ensures forall i :: 0 <= i < |ts| && ts[i].id == editing.id ==>
      var r := EditTask(ts, Some(editing), Submit(f));
      r[i].status == Pending && r[i].id == ts[i].id && r[i].createdAt == ts[i].createdAt &&
      r[i].image == ts[i].image
  {
  }
}
