/**
 The `JobTracker` component's state and its event handlers. Each React state
 hook is a field; each `setX` call is an assignment to that field. The saved
 copy in `localStorage` is the field `stored`, written whenever `jobs`
 changes, as the component's effect on `jobs` does.
 */
module Tracker {
  import opened Wrappers
  import opened Jobs
  import opened Views
  import opened Seed

  class JobTracker {
    var jobs: seq<Job>
    var stored: seq<Job>
    var form: Form
    var showForm: bool
    var editingId: Option<Id>
    var filters: Filters

    /**
     Ids are unique, every record has a company, a title and a date, the
     saved copy is the list, and while the form is hidden the draft is empty
     and no record is being edited.
     */
    ghost predicate Valid()
      reads this
    {
      && UniqueIds(jobs)
      && Filled(jobs)
      && stored == jobs
      && (!showForm ==> form == DefaultForm && editingId == None)
    }

    /** Mounting: the saved copy is overwritten with the seed list, which the list starts from. */
    constructor (seedIds: seq<Id>)
      requires SeedIds(seedIds)
      ensures Valid()
      ensures jobs == InitialData(seedIds)
      ensures form == DefaultForm && !showForm && editingId == None && filters == DefaultFilters
    {
      jobs := InitialData(seedIds);
      stored := InitialData(seedIds);
      form := DefaultForm;
      showForm := false;
      editingId := None;
      filters := DefaultFilters;
    }

    /** `handleChange`: an input of the form sets its field of the draft. */
    method HandleChange(field: FormField, value: string)
      requires Valid() && showForm
      modifies this`form
      ensures Valid()
      ensures form == Set(old(form), field, value)
    {
      form := Set(form, field, value);
    }

    /** `handleFilterChange`: a filter control sets its criterion. */
    method HandleFilterChange(field: FilterField, value: string)
      requires Valid()
      modifies this`filters
      ensures Valid()
      ensures filters == SetFilter(old(filters), field, value)
    {
      filters := SetFilter(filters, field, value);
    }

    /** The Add Job button: shows the form, which then holds the empty draft for a new record. */
    method OpenForm()
      requires Valid()
      modifies this`showForm
      ensures Valid() && showForm
      ensures !old(showForm) ==> form == DefaultForm && editingId == None
    {
      showForm := true;
    }

    /**
     `handleAddJob`: an incomplete draft is rejected and nothing changes.
     Otherwise the draft replaces the record being edited, or is prepended as
     a new record under `freshId` (the `uuidv4()` the component calls), and the
     form closes and empties.
     */
    method HandleAddJob(freshId: Id) returns (accepted: bool)
      requires Valid() && Fresh(jobs, freshId)
      modifies this`jobs, this`stored, this`form, this`editingId, this`showForm
      ensures Valid()
      ensures accepted == Complete(old(form))
      ensures !accepted ==>
                jobs == old(jobs) && form == old(form) && editingId == old(editingId) && showForm == old(showForm)
      ensures accepted && old(editingId) == None ==>
                jobs == [Record(freshId, old(form))] + old(jobs) && Fresh(old(jobs), jobs[0].id)
      ensures accepted && old(editingId).Some? ==> jobs == Updated(old(jobs), old(editingId).value, old(form))
      ensures accepted && old(editingId).Some? && Fresh(old(jobs), old(editingId).value) ==> jobs == old(jobs)
      ensures accepted ==> form == DefaultForm && editingId == None && !showForm
    {
      if !Complete(form) {
        return false;
      }
      if editingId.Some? {
        UpdatedKeepsIds(jobs, editingId.value, form);
        RecordFilled(editingId.value, form, jobs);
        if Fresh(jobs, editingId.value) {
          UpdatedUnknownId(jobs, editingId.value, form);
        }
        jobs := Updated(jobs, editingId.value, form);
        editingId := None;
      } else {
        PrependKeepsUniqueIds(Record(freshId, form), jobs);
        RecordFilled(freshId, form, jobs);
        jobs := [Record(freshId, form)] + jobs;
      }
      stored := jobs;
      form := DefaultForm;
      showForm := false;
      accepted := true;
    }

    /** `handleEdit`: the form opens on the record's draft, editing its id. */
    method HandleEdit(job: Job)
      requires Valid()
      modifies this`form, this`editingId, this`showForm
      ensures Valid()
      ensures form == Draft(job) && editingId == Some(job.id) && showForm
    {
      form := Draft(job);
      editingId := Some(job.id);
      showForm := true;
    }

    /** `handleCancel`: the draft is discarded and the form closes; the list is untouched. */
    method HandleCancel()
      requires Valid()
      modifies this`form, this`editingId, this`showForm
      ensures Valid()
      ensures form == DefaultForm && editingId == None && !showForm
    {
      form := DefaultForm;
      editingId := None;
      showForm := false;
    }

    /**
     `handleDelete`: once the user confirms, every record with that id goes;
     declining changes nothing.
     */
    method HandleDelete(id: Id, confirmed: bool)
      requires Valid()
      modifies this`jobs, this`stored
      ensures Valid()
      ensures jobs == if confirmed then Removed(old(jobs), id) else old(jobs)
      ensures Fresh(jobs, id) || !confirmed
      ensures !confirmed || Fresh(old(jobs), id) ==> jobs == old(jobs)
    {
      if confirmed {
        RemovedKeepsUniqueIds(jobs, id);
        RemovedFilled(jobs, id);
        RemovedSelects(jobs, id);
        if Fresh(jobs, id) {
          RemovedUnknownId(jobs, id);
        }
        jobs := Removed(jobs, id);
        stored := jobs;
      }
    }
  }
}
