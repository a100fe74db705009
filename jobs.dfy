/**
 The job-application record, the form draft the tracker edits, and the two
 list edits the submit handler performs: replacing a record by id and
 removing records by id.
 */
module Jobs {
  import opened Wrappers
  import opened Lists

  /** A record id, as produced by `uuidv4()`: never the empty string. */
  type Id = s: string | s != "" witness "0"

  /**
   One tracked application. The edit handler treats location, work style,
   salary, note and link as possibly missing (its `|| ''` and `|| 'Remote'`
   fallbacks), so those are `Option`s. Of the records that actually occur,
   only three seed records (Revolut, Shopify and Microsoft) lack one, their
   `link`; a record made from the form carries every field.
   */
  datatype Job = Job(
    id: Id,
    company: string,
    title: string,
    location: Option<string>,
    workStyle: Option<string>,
    status: string,
    salary: Option<string>,
    date: string,
    note: Option<string>,
    link: Option<string>)

  /** The form draft: every field is a string, bound to one input. */
  datatype Form = Form(
    company: string,
    title: string,
    location: string,
    workStyle: string,
    status: string,
    salary: string,
    date: string,
    note: string,
    link: string)

  /** The `name` attribute of a form input. */
  datatype FormField = Company | Title | Location | WorkStyle | Status | Salary | Date | Note | Link

  /** JavaScript `v || fallback` on an optional string: missing and `''` are both falsy. */
  function Or(v: Option<string>, fallback: string): string
  {
    if v.Some? && v.value != "" then v.value else fallback
  }

  /** The empty draft: `workStyle` Remote, `status` Applied, everything else empty. */
  const DefaultForm := Form("", "", "", "Remote", "Applied", "", "", "", "")

  /** `form[name]`. */
  function Get(form: Form, field: FormField): string
  {
    match field
    case Company => form.company
    case Title => form.title
    case Location => form.location
    case WorkStyle => form.workStyle
    case Status => form.status
    case Salary => form.salary
    case Date => form.date
    case Note => form.note
    case Link => form.link
  }

  /** `{ ...form, [name]: value }`: one field takes the value, the others keep theirs. */
  function Set(form: Form, field: FormField, value: string): (r: Form)
    ensures Get(r, field) == value
    ensures forall other :: other != field ==> Get(r, other) == Get(form, other)
  {
    match field
    case Company => form.(company := value)
    case Title => form.(title := value)
    case Location => form.(location := value)
    case WorkStyle => form.(workStyle := value)
    case Status => form.(status := value)
    case Salary => form.(salary := value)
    case Date => form.(date := value)
    case Note => form.(note := value)
    case Link => form.(link := value)
  }

  /** The submit guard: `company`, `title` and `date` must all be non-empty. */
  predicate Complete(form: Form)
  {
    form.company != "" && form.title != "" && form.date != ""
  }

  /** The draft an empty form, a cancel and a successful save leave: always rejected by the guard. */
  lemma DefaultFormIncomplete()
    ensures !Complete(DefaultForm)
    ensures DefaultForm.workStyle == "Remote" && DefaultForm.status == "Applied"
    ensures forall field :: field != WorkStyle && field != Status ==> Get(DefaultForm, field) == ""
  {
  }

  /**
   The guard looks at company, title and date only: editing any other input
   never changes whether the draft is accepted.
   */
  lemma CompleteOnlyRequired(form: Form, field: FormField, value: string)
    requires field != Company && field != Title && field != Date
    ensures Complete(Set(form, field, value)) == Complete(form)
  {
  }

  /**
   `{ id, ...form }`: the record whose id is `id` and whose other fields are
   the draft's. `{ ...job, ...form }` is `Record(job.id, form)`, since the
   draft carries all nine fields and so overrides every field but the id.
   Editing the record reopens the draft it was saved from, provided the draft
   had a work style.
   */
  function Record(id: Id, form: Form): (r: Job)
    ensures r.id == id
    ensures form.workStyle != "" ==> Draft(r) == form
  {
    Job(id, form.company, form.title, Some(form.location), Some(form.workStyle),
        form.status, Some(form.salary), form.date, Some(form.note), Some(form.link))
  }

  /**
   The draft that editing `job` opens. Company, title, status and date are
   copied. A location, salary, note or link that is missing or `''` becomes
   `''`, and one that is present is copied. A work style that is present and
   not `''` is copied. A missing or `''` work style falls back to the location
   (older records kept the style there), and then to Remote.
   */
  function Draft(job: Job): (r: Form)
    ensures r.company == job.company && r.title == job.title
    ensures r.status == job.status && r.date == job.date
    ensures job.location.Some? ==> r.location == job.location.value
    ensures job.salary.Some? ==> r.salary == job.salary.value
    ensures job.note.Some? ==> r.note == job.note.value
    ensures job.link.Some? ==> r.link == job.link.value
    ensures job.location == None ==> r.location == ""
    ensures job.salary == None ==> r.salary == ""
    ensures job.note == None ==> r.note == ""
    ensures job.link == None ==> r.link == ""
    ensures job.workStyle.Some? && job.workStyle.value != "" ==> r.workStyle == job.workStyle.value
    ensures (job.workStyle == None || job.workStyle == Some("")) && job.location.Some? && job.location.value != "" ==>
              r.workStyle == job.location.value
    ensures (job.workStyle == None || job.workStyle == Some("")) && (job.location == None || job.location == Some("")) ==>
              r.workStyle == "Remote"
  {
    Form(job.company, job.title, Or(job.location, ""),
         Or(job.workStyle, Or(job.location, "Remote")),
         job.status, Or(job.salary, ""), job.date, Or(job.note, ""), Or(job.link, ""))
  }

  /**
   Saving an edit without changing anything leaves a record that has all its
   fields and a work style as it was.
   */
  lemma RecordOfDraft(job: Job)
    requires job.location.Some? && job.salary.Some? && job.note.Some? && job.link.Some?
    requires job.workStyle.Some? && job.workStyle.value != ""
    ensures Record(job.id, Draft(job)) == job
  {
  }

  /** No record of `jobs` has the id `id`. */
  predicate Fresh(jobs: seq<Job>, id: Id)
  {
    forall i :: 0 <= i < |jobs| ==> jobs[i].id != id
  }

  /** No two records share an id. */
  ghost predicate UniqueIds(jobs: seq<Job>)
  {
    forall i, j :: 0 <= i < j < |jobs| ==> jobs[i].id != jobs[j].id
  }

  /** Every record has the three fields the submit guard demands. */
  predicate Filled(jobs: seq<Job>)
  {
    forall k :: 0 <= k < |jobs| ==> jobs[k].company != "" && jobs[k].title != "" && jobs[k].date != ""
  }

  /** A record saved from an accepted draft has the required fields. */
  lemma RecordFilled(id: Id, form: Form, jobs: seq<Job>)
    requires Complete(form) && Filled(jobs)
    ensures Filled([Record(id, form)] + jobs)
    ensures Filled(Updated(jobs, id, form))
  {
    var r := [Record(id, form)] + jobs;
    forall k | 0 < k < |r| ensures r[k] == jobs[k - 1] {
    }
  }

  /** Deleting keeps every record's required fields. */
  lemma RemovedFilled(jobs: seq<Job>, id: Id)
    requires Filled(jobs)
    ensures Filled(Removed(jobs, id))
  {
    var r := Removed(jobs, id);
    forall k | 0 <= k < |r| ensures r[k].company != "" && r[k].title != "" && r[k].date != "" {
      assert r[k] in jobs;
    }
  }

  /** Prepending a record with a fresh id keeps ids unique. */
  lemma PrependKeepsUniqueIds(job: Job, jobs: seq<Job>)
    requires UniqueIds(jobs) && Fresh(jobs, job.id)
    ensures UniqueIds([job] + jobs)
  {
    var r := [job] + jobs;
    forall i, j | 0 <= i < j < |r| ensures r[i].id != r[j].id {
      assert r[j] == jobs[j - 1];
      if i > 0 {
        assert r[i] == jobs[i - 1];
      }
    }
  }

  /**
   `jobs.map(job => job.id === id ? { ...job, ...form } : job)`: the record
   with that id takes the draft, every other record stays where it is.
   */
  function Updated(jobs: seq<Job>, id: Id, form: Form): (r: seq<Job>)
    ensures |r| == |jobs|
    ensures forall i :: 0 <= i < |jobs| && jobs[i].id == id ==> r[i] == Record(id, form)
    ensures forall i :: 0 <= i < |jobs| && jobs[i].id != id ==> r[i] == jobs[i]
  {
    if jobs == [] then []
    else [if jobs[0].id == id then Record(id, form) else jobs[0]] + Updated(jobs[1..], id, form)
  }

  /** Updating keeps every record's id in its place, so ids stay unique. */
  lemma UpdatedKeepsIds(jobs: seq<Job>, id: Id, form: Form)
    ensures forall i :: 0 <= i < |jobs| ==> Updated(jobs, id, form)[i].id == jobs[i].id
    ensures UniqueIds(jobs) ==> UniqueIds(Updated(jobs, id, form))
  {
  }

  /** Updating an id no record has leaves the list as it was. */
  lemma UpdatedUnknownId(jobs: seq<Job>, id: Id, form: Form)
    requires Fresh(jobs, id)
    ensures Updated(jobs, id, form) == jobs
  {
  }

  /** The record deletion keeps: every record whose id is not `id`. */
  function Other(id: Id): Job -> bool
  {
    (job: Job) => job.id != id
  }

  /** `jobs.filter(job => job.id !== id)`. */
  function Removed(jobs: seq<Job>, id: Id): (r: seq<Job>)
    ensures forall k :: 0 <= k < |r| ==> r[k] in jobs && r[k].id != id
    ensures forall i :: 0 <= i < |jobs| && jobs[i].id != id ==> jobs[i] in r
  {
    Keep(jobs, Other(id))
  }

  /**
   Deletion keeps, in their order, exactly the records whose id is not `id`:
   the list it leaves is `jobs` read at increasing positions, and a position
   is read if and only if its record has another id.
   */
  lemma RemovedSelects(jobs: seq<Job>, id: Id)
    ensures Fresh(Removed(jobs, id), id)
    ensures exists idx :: Selects(idx, Removed(jobs, id), jobs) &&
              forall i :: 0 <= i < |jobs| ==> (i in idx <==> jobs[i].id != id)
  {
    KeepSelects(jobs, Other(id));
    assert Selects(KeptIndices(jobs, Other(id)), Removed(jobs, id), jobs);
  }

  /** Deleting an id no record has leaves the list as it was. */
  lemma RemovedUnknownId(jobs: seq<Job>, id: Id)
    requires Fresh(jobs, id)
    ensures Removed(jobs, id) == jobs
  {
    KeepAll(jobs, Other(id));
  }

  /** With unique ids, deleting an existing id removes exactly one record. */
  lemma {:induction false} RemovedLength(jobs: seq<Job>, id: Id)
    requires UniqueIds(jobs)
    ensures |Removed(jobs, id)| == if Fresh(jobs, id) then |jobs| else |jobs| - 1
  {
    if jobs != [] {
      var rest := jobs[1..];
      assert UniqueIds(rest) by {
        forall i, j | 0 <= i < j < |rest| ensures rest[i].id != rest[j].id {
          assert rest[i] == jobs[i + 1] && rest[j] == jobs[j + 1];
        }
      }
      assert Removed(jobs, id) == (if jobs[0].id != id then [jobs[0]] else []) + Removed(rest, id);
      if jobs[0].id == id {
        assert Fresh(rest, id) by {
          forall i | 0 <= i < |rest| ensures rest[i].id != id {
            assert rest[i] == jobs[i + 1];
          }
        }
        RemovedUnknownId(rest, id);
      } else {
        RemovedLength(rest, id);
        assert Fresh(jobs, id) <==> Fresh(rest, id) by {
          forall i | 0 < i < |jobs| ensures jobs[i] == rest[i - 1] {
          }
        }
      }
    }
  }

  /** Deleting keeps ids unique. */
  lemma RemovedKeepsUniqueIds(jobs: seq<Job>, id: Id)
    requires UniqueIds(jobs)
    ensures UniqueIds(Removed(jobs, id))
  {
    KeepSelects(jobs, Other(id));
    var idx, r := KeptIndices(jobs, Other(id)), Removed(jobs, id);
    forall a, b | 0 <= a < b < |r| ensures r[a].id != r[b].id {
      assert r[a] == jobs[idx[a]] && r[b] == jobs[idx[b]] && idx[a] < idx[b];
    }
  }
}
