/** What the three upload components (forecasts, contracts, plain PDFs) have in
    common: the file handle they see, the entries of their upload lists, the
    size limit check, and the two list updates every one of them performs,
    "mark the entry with this id a success" (the timer callback) and "drop the
    entries with this id" (the remove button). */
module Uploads {
  import opened Options
  import opened Sequences
  import opened Strings

  /** The part of a browser `File` the components read: its name, its MIME
      type (`file.type`) and its size in bytes. Contents are never read. */
  datatype FileInfo = FileInfo(name: string, mimeType: string, size: nat)

  /** Entry ids come from `Date.now()` and `Math.random()`; here the caller
      supplies them. */
  type Id = string

  datatype Status = Uploading | Success | Error

  /** One row of an upload list; `meta` holds what a particular component adds
      (a display name, a sheet count). */
  datatype Entry<M> = Entry(file: FileInfo, id: Id, status: Status, meta: M)

  /** A scheduled `setTimeout` completion: the id of the new entry and the file
      it will hand to the component's upload callback. */
  datatype Timer = Timer(id: Id, file: FileInfo)

  const BytesPerMegabyte: nat := 1024 * 1024

  /** `file.size / (1024 * 1024) > maxFileSize`: the file is over the limit
      exactly when it has more bytes than `maxFileSize` megabytes, so a file of
      exactly the limit passes. */
  function ExceedsSizeLimit(size: nat, maxFileSize: nat): (tooLarge: bool)
    ensures tooLarge <==> size > maxFileSize * BytesPerMegabyte
  {
    (size as real) / (BytesPerMegabyte as real) > maxFileSize as real
  }

  /** `!file.type.includes('pdf') && !file.name.toLowerCase().endsWith('.pdf')`
      negated: the type test of both PDF components. */
  predicate LooksLikePdf(file: FileInfo)
  {
    Contains(file.mimeType, "pdf") || EndsWith(ToLower(file.name), ".pdf")
  }

  /** The validator of both PDF components, which differ only in their two
      messages: the type test first, then the size limit; `None` is the
      source's `null` (no error). */
  function ValidatePdf(file: FileInfo, maxFileSize: nat, typeError: string, sizeError: string): (r: Option<string>)
    ensures !LooksLikePdf(file) ==> r == Some(typeError)
    ensures LooksLikePdf(file) && file.size > maxFileSize * BytesPerMegabyte ==> r == Some(sizeError)
    ensures r == None <==> LooksLikePdf(file) && file.size <= maxFileSize * BytesPerMegabyte
  {
    if !Contains(file.mimeType, "pdf") && !EndsWith(ToLower(file.name), ".pdf") then
      Some(typeError)
    else if ExceedsSizeLimit(file.size, maxFileSize) then
      Some(sizeError)
    else
      None
  }

  /** No entry is in the `Error` state: no code path ever sets it. */
  predicate NoErrorStatus<M>(entries: seq<Entry<M>>)
  {
    forall i :: 0 <= i < |entries| ==> entries[i].status != Error
  }

  /** The timer callback
      `prev.map(e => e.id === id ? { ...e, status: 'success', ... } : e)`:
      every entry with the id becomes a success and gets `update` applied to
      its component data; every other entry stays as it was. */
  function MarkSuccess<M>(entries: seq<Entry<M>>, id: Id, update: M -> M): (r: seq<Entry<M>>)
    ensures |r| == |entries|
    ensures forall i :: 0 <= i < |r| && entries[i].id != id ==> r[i] == entries[i]
    ensures forall i :: 0 <= i < |r| && entries[i].id == id ==>
      r[i] == Entry(entries[i].file, id, Success, update(entries[i].meta))
  {
    if entries == [] then []
    else
      var e := entries[0];
      [if e.id == id then e.(status := Success, meta := update(e.meta)) else e]
      + MarkSuccess(entries[1..], id, update)
  }

  /** A completion whose id is in no entry changes nothing. */
  lemma MarkSuccessAbsent<M>(entries: seq<Entry<M>>, id: Id, update: M -> M)
    requires forall i :: 0 <= i < |entries| ==> entries[i].id != id
    ensures MarkSuccess(entries, id, update) == entries
  {
  }

  /** A completion keeps every id in place and never produces `Error`. */
  lemma MarkSuccessKeepsShape<M>(entries: seq<Entry<M>>, id: Id, update: M -> M)
    ensures forall i :: 0 <= i < |entries| ==>
      MarkSuccess(entries, id, update)[i].id == entries[i].id &&
      MarkSuccess(entries, id, update)[i].file == entries[i].file
    ensures NoErrorStatus(entries) ==> NoErrorStatus(MarkSuccess(entries, id, update))
  {
  }

  /** The completion of a freshly appended entry flips that entry alone. */
  lemma MarkSuccessOfFresh<M>(entries: seq<Entry<M>>, e: Entry<M>, update: M -> M)
    requires forall i :: 0 <= i < |entries| ==> entries[i].id != e.id
    ensures MarkSuccess(entries + [e], e.id, update) == entries + [Entry(e.file, e.id, Success, update(e.meta))]
  {
    var s := entries + [e];
    var r := MarkSuccess(s, e.id, update);
    var expected := entries + [Entry(e.file, e.id, Success, update(e.meta))];
    forall i | 0 <= i < |s| ensures r[i] == expected[i] {
      if i < |entries| {
        assert s[i] == entries[i];
      } else {
        assert s[i] == e;
      }
    }
    assert r == expected;
  }

  /** The filter predicate of the remove button: `e => e.id !== id`. */
  function HasOtherId<M>(id: Id): Entry<M> -> bool
  {
    (e: Entry<M>) => e.id != id
  }

  /** The remove button: `prev.filter(e => e.id !== id)`. */
  function RemoveById<M>(entries: seq<Entry<M>>, id: Id): seq<Entry<M>>
  {
    Filter(entries, HasOtherId(id))
  }

  /** Removal drops exactly the entries with that id: the others stay in their
      order and as often as they were there, and no entry with the id is
      left. */
  lemma RemoveByIdSpec<M>(entries: seq<Entry<M>>, id: Id)
    ensures IsSubsequence(RemoveById(entries, id), entries)
    ensures forall e :: e in RemoveById(entries, id) <==> e in entries && e.id != id
    ensures forall e: Entry<M> :: e.id != id ==> multiset(RemoveById(entries, id))[e] == multiset(entries)[e]
    ensures forall i :: 0 <= i < |RemoveById(entries, id)| ==> RemoveById(entries, id)[i].id != id
    ensures NoErrorStatus(entries) ==> NoErrorStatus(RemoveById(entries, id))
  {
    var keep := HasOtherId<M>(id);
    FilterIsSubsequence(entries, keep);
    forall e ensures e in RemoveById(entries, id) <==> e in entries && e.id != id {
      FilterMembership(entries, keep, e);
    }
    forall e: Entry<M> | e.id != id ensures multiset(RemoveById(entries, id))[e] == multiset(entries)[e] {
      FilterMultiplicity(entries, keep, e);
    }
    var r := RemoveById(entries, id);
    if NoErrorStatus(entries) {
      forall i | 0 <= i < |r| ensures r[i].status != Error {
        FilterMembership(entries, keep, r[i]);
        assert r[i] in entries;
      }
    }
  }

  /** A timer that fires after its entry was removed finds nothing to mark:
      the late completion is a no-op on the list. */
  lemma CompletionAfterRemoval<M>(entries: seq<Entry<M>>, id: Id, update: M -> M)
    ensures MarkSuccess(RemoveById(entries, id), id, update) == RemoveById(entries, id)
  {
    MarkSuccessAbsent(RemoveById(entries, id), id, update);
  }
}
