/**
  The job repository alone in its transaction: each function reads the row, checks it and assigns its
  fields, or raises.
 */
module JobStore {
  import opened Common
  import opened JobLifecycle

  datatype JobError = NotFound | InvalidTransition | WrongShape | RevisionConflict | Integrity

  class JobTable {
    var jobs: map<Id, Job>
    ghost var used: set<Id>

    ghost function Value(): Table
      reads this
    {
      Table(jobs, used)
    }

    constructor ()
      ensures Value() == EMPTY
    {
      jobs, used := map[], {};
    }

    method HashIsFree(id: Id, raw: Option<Raw>) returns (free: bool)
      ensures free == HashFree(Value(), id, raw)
    {
      free := !exists o ::
        o in jobs && o != id && raw.Some? && jobs[o].raw.Some? && jobs[o].raw.value.hash == raw.value.hash;
    }

    /** The flush: the row checks and the unique hash either take the row or raise. */
    method Flush(id: Id, j: Job) returns (r: Option<JobError>)
      modifies this
      ensures Value() == Store(old(Value()), id, j)
      ensures r == if RowChecks(j) && HashFree(old(Value()), id, j.raw) then None else Some(Integrity)
    {
      var free := HashIsFree(id, j.raw);
      if !RowChecks(j) || !free {
        return Some(Integrity);
      }
      jobs := jobs[id := j];
      used := used + {id};
      r := None;
    }

    method CreateTextJob(id: Id, raw: Raw, now: int) returns (r: Option<JobError>)
      requires id !in used
      modifies this
      ensures Value() == Apply(old(Value()), old(Value()), CreateText(id, raw, now))
      ensures r.None? <==> HashFree(old(Value()), id, Some(raw))
      ensures jobs == if r.Some? then old(jobs)
                      else old(jobs)[id := Job(false, Some(raw), Received, None, None, None, NO_EMBEDDING, now)]
    {
      r := Flush(id, NewJob(false, Some(raw), now));
    }

    method CreateUrlPlaceholder(id: Id, now: int) returns (r: Option<JobError>)
      requires id !in used
      modifies this
      ensures Value() == Apply(old(Value()), old(Value()), CreateUrl(id, now)) && r.None?
      ensures jobs == old(jobs)[id := Job(true, None, Received, None, None, None, NO_EMBEDDING, now)]
    {
      r := Flush(id, NewJob(true, None, now));
    }

    method SetUrlRawContent(id: Id, raw: Raw, now: int) returns (r: Option<JobError>)
      modifies this
      ensures Value() == Apply(old(Value()), old(Value()), SetRaw(id, raw, now))
      ensures r == Some(NotFound) <==> id !in old(jobs)
      ensures r == Some(WrongShape)
         <==> id in old(jobs)
              && !(old(jobs)[id].fromUrl && old(jobs)[id].status == Received && old(jobs)[id].raw == None)
      ensures jobs == if r.Some? then old(jobs)
                      else old(jobs)[id := old(jobs)[id].(raw := Some(raw), updatedAt := now)]
    {
      if id !in jobs {
        return Some(NotFound);
      }
      var row := jobs[id];
      if !row.fromUrl || row.raw.Some? || row.status != Received {
        return Some(WrongShape);
      }
      r := Flush(id, row.(raw := Some(raw), updatedAt := now));
    }

    method MarkProcessingRow(id: Id, now: int) returns (r: Option<JobError>)
      requires Inv(Value())
      modifies this
      ensures Value() == Apply(old(Value()), old(Value()), MarkProcessing(id, now)) && Inv(Value())
      ensures r.None? <==> id in old(jobs) && old(jobs)[id].status == Received
      ensures jobs == if r.Some? then old(jobs)
                      else old(jobs)[id := old(jobs)[id].(status := Processing, updatedAt := now)]
    {
      hide HashFree, HashesApart;
      InvKept(Value(), Value(), MarkProcessing(id, now));
      WritesAll(Value(), MarkProcessing(id, now));
      HashOfRow(Value(), id);
      if id !in jobs {
        return Some(NotFound);
      }
      var row := jobs[id];
      if row.status != Received {
        return Some(InvalidTransition);
      }
      assert Settled(jobs[id]);
      r := Flush(id, row.(status := Processing, updatedAt := now));
    }

    method RetryFailed(id: Id, now: int) returns (r: Option<JobError>)
      requires Inv(Value())
      modifies this
      ensures Value() == Apply(old(Value()), old(Value()), Retry(id, now)) && Inv(Value())
      ensures r.None? <==> id in old(jobs) && old(jobs)[id].status == Failed
      ensures jobs == if r.Some? then old(jobs)
                      else old(jobs)[id := Job(old(jobs)[id].fromUrl, old(jobs)[id].raw, Processing, None, None, None,
                                               Embedding(None, None, None), now)]
    {
      hide HashFree, HashesApart;
      InvKept(Value(), Value(), Retry(id, now));
      WritesAll(Value(), Retry(id, now));
      HashOfRow(Value(), id);
      if id !in jobs {
        return Some(NotFound);
      }
      var row := jobs[id];
      if row.status != Failed {
        return Some(InvalidTransition);
      }
      assert Settled(jobs[id]);
      row := row.(failure := None, extraction := None, quality := None, embedding := NO_EMBEDDING);
      row := row.(status := Processing, updatedAt := now);
      r := Flush(id, row);
    }

    method MarkFailedRow(id: Id, code: Id, now: int) returns (r: Option<JobError>)
      requires Inv(Value())
      modifies this
      ensures Value() == Apply(old(Value()), old(Value()), MarkFailed(id, code, now)) && Inv(Value())
      ensures r.None? <==> id in old(jobs) && (old(jobs)[id].status == Received || old(jobs)[id].status == Processing)
      ensures jobs == if r.Some? then old(jobs)
                      else old(jobs)[id := old(jobs)[id].(status := Failed, failure := Some(code), updatedAt := now)]
    {
      hide HashFree, HashesApart;
      InvKept(Value(), Value(), MarkFailed(id, code, now));
      WritesAll(Value(), MarkFailed(id, code, now));
      HashOfRow(Value(), id);
      if id !in jobs {
        return Some(NotFound);
      }
      var row := jobs[id];
      if row.status != Received && row.status != Processing {
        return Some(InvalidTransition);
      }
      assert Settled(jobs[id]);
      r := Flush(id, row.(status := Failed, failure := Some(code), updatedAt := now));
    }

    method MarkProcessedRow(
      id: Id, doc: Doc, quality: Quality, embedding: Embedding, now: int) returns (r: Option<JobError>)
      requires Inv(Value())
      modifies this
      ensures Value() == Apply(old(Value()), old(Value()), MarkProcessed(id, doc, quality, embedding, now))
      ensures Inv(Value())
      ensures r.None?
         <==> id in old(jobs) && old(jobs)[id].status == Processing
              && (quality != Unscorable ==>
                    embedding.vector.Some? && embedding.model.Some? && embedding.dimensions.Some?
                    && embedding.dimensions.value > 0)
      ensures jobs == if r.Some? then old(jobs)
                      else old(jobs)[id := Job(old(jobs)[id].fromUrl, old(jobs)[id].raw, Processed, None, Some(doc),
                                               Some(quality), if quality == Unscorable then NO_EMBEDDING else embedding,
                                               now)]
    {
      hide HashFree, HashesApart;
      InvKept(Value(), Value(), MarkProcessed(id, doc, quality, embedding, now));
      WritesAll(Value(), MarkProcessed(id, doc, quality, embedding, now));
      HashOfRow(Value(), id);
      if id !in jobs {
        return Some(NotFound);
      }
      var row := jobs[id];
      if row.status != Processing {
        return Some(InvalidTransition);
      }
      assert Settled(jobs[id]);
      row := row.(status := Processed, failure := None, extraction := Some(doc), quality := Some(quality));
      if Scorable(Some(quality)) {
        row := row.(embedding := embedding);
      } else {
        row := row.(embedding := NO_EMBEDDING);
      }
      r := Flush(id, row.(updatedAt := now));
    }

    /** One conditional update on id and captured revision; no hit is a conflict. */
    method ReplaceExtractionIfUnchanged(
      id: Id, expected: int, doc: Doc, quality: Quality, embedding: Embedding, now: int)
      returns (r: Option<JobError>)
      requires Inv(Value())
      modifies this
      ensures Value() == Apply(old(Value()), old(Value()), Replace(id, expected, doc, quality, embedding, now))
      ensures Inv(Value())
      ensures r == Some(WrongShape) <==> !ReplaceArguments(quality, embedding)
      ensures r.None?
         <==> ReplaceArguments(quality, embedding) && id in old(jobs) && old(jobs)[id].updatedAt == expected
      ensures jobs == if r.Some? then old(jobs)
                      else old(jobs)[id := Job(old(jobs)[id].fromUrl, old(jobs)[id].raw, Processed, None, Some(doc),
                                               Some(quality), embedding, if now > expected then now else expected + 1)]
    {
      hide HashFree, HashesApart;
      InvKept(Value(), Value(), Replace(id, expected, doc, quality, embedding, now));
      WritesAll(Value(), Replace(id, expected, doc, quality, embedding, now));
      HashOfRow(Value(), id);
      if quality == Unscorable || !Complete(embedding) {
        return Some(WrongShape);
      }
      if id !in jobs || jobs[id].updatedAt != expected {
        return Some(RevisionConflict);
      }
      assert Settled(jobs[id]);
      var revision := if now > expected then now else expected + 1;
      r := Flush(id, jobs[id].(status := Processed, failure := None, extraction := Some(doc), quality := Some(quality),
                               embedding := embedding, updatedAt := revision));
    }

    /** Only a bare URL placeholder that nothing was fetched for may be deleted this way. */
    method DeleteUrlPlaceholder(id: Id) returns (r: Option<JobError>)
      modifies this`jobs
      ensures Value() == Apply(old(Value()), old(Value()), DeletePlaceholder(id))
      ensures r == Some(NotFound) <==> id !in old(jobs)
      ensures r == Some(WrongShape)
         <==> id in old(jobs)
              && !(old(jobs)[id].fromUrl && old(jobs)[id].status == Received && old(jobs)[id].raw == None)
      ensures jobs == if r.Some? then old(jobs) else old(jobs) - {id}
    {
      if id !in jobs {
        return Some(NotFound);
      }
      var row := jobs[id];
      if !row.fromUrl || row.status != Received || row.raw.Some? {
        return Some(WrongShape);
      }
      jobs := jobs - {id};
      r := None;
    }

    method DeleteById(id: Id) returns (r: Option<JobError>)
      modifies this`jobs
      ensures Value() == Apply(old(Value()), old(Value()), Delete(id))
      ensures r == if id in old(jobs) then None else Some(NotFound)
      ensures jobs == old(jobs) - {id}
    {
      if id !in jobs {
        return Some(NotFound);
      }
      jobs := jobs - {id};
      r := None;
    }
  }

  lemma WritesAll(t: Table, m: Move)
    ensures m.id in t.jobs && Left(t.jobs[m.id], m).Some? ==>
              Apply(t, t, m) == Store(t, m.id, Left(t.jobs[m.id], m).value)
  {
    hide Store;
    if m.id in t.jobs && Left(t.jobs[m.id], m).Some? {
      CurrentReadsWriteAll(t, m);
    }
  }

  lemma HashOfRow(t: Table, id: Id)
    requires Inv(t)
    ensures id in t.jobs ==> HashFree(t, id, t.jobs[id].raw)
  {
    hide HashFree;
  }
}
