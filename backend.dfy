/** The hosted backend both the server and the browser pages talk to: an object store of photo
    files (bucket -> key -> bytes) and the `staff_records` table. Whether a remote call fails is
    an input (`fault`: the error message the service would report, or `None`); the time the
    table stamps on a new row is an input too. `calls` records which remote calls were made, in
    order, so that workflows can state what they called and in which order. */
module Backend {
  import opened Wrappers

  type Bytes = seq<bv8>

  /** A row of `staff_records`. `exitDate` is `None` when the column is null. */
  datatype StaffRecord = StaffRecord(
    id: nat,
    fullName: string,
    resumptionDate: string,
    exitDate: Option<string>,
    location: string,
    designation: string,
    hiringOfficer: string,
    pictureUrl: string,
    createdAt: nat)

  /** The seven columns an insert supplies; `id` and `created_at` are assigned by the table. */
  datatype NewRow = NewRow(
    fullName: string,
    resumptionDate: string,
    exitDate: string,
    location: string,
    designation: string,
    hiringOfficer: string,
    pictureUrl: string)

  const FullNameColumn := "full_name"
  const ResumptionDateColumn := "resumption_date"
  const ExitDateColumn := "exit_date"
  const LocationColumn := "location"
  const DesignationColumn := "designation"
  const HiringOfficerColumn := "hiring_officer"
  const PictureUrlColumn := "picture_url"

  /** The `exit_date` value the intake page submits for someone still employed. */
  const StillWorking := "Still Working"

  /** The object an `update(...)` call sends: column name -> new value. */
  type Patch = map<string, string>

  function Patched(current: string, patch: Patch, column: string): string
  {
    if column in patch then patch[column] else current
  }

  /** The row after a partial update: exactly the columns named in the patch change. */
  function ApplyPatch(r: StaffRecord, patch: Patch): (r': StaffRecord)
    ensures r'.id == r.id && r'.createdAt == r.createdAt
    ensures patch == map[] ==> r' == r
    ensures FullNameColumn in patch ==> r'.fullName == patch[FullNameColumn]
    ensures FullNameColumn !in patch ==> r'.fullName == r.fullName
    ensures ResumptionDateColumn in patch ==> r'.resumptionDate == patch[ResumptionDateColumn]
    ensures ResumptionDateColumn !in patch ==> r'.resumptionDate == r.resumptionDate
    ensures ExitDateColumn in patch ==> r'.exitDate == Some(patch[ExitDateColumn])
    ensures ExitDateColumn !in patch ==> r'.exitDate == r.exitDate
    ensures LocationColumn in patch ==> r'.location == patch[LocationColumn]
    ensures LocationColumn !in patch ==> r'.location == r.location
    ensures DesignationColumn in patch ==> r'.designation == patch[DesignationColumn]
    ensures DesignationColumn !in patch ==> r'.designation == r.designation
    ensures HiringOfficerColumn in patch ==> r'.hiringOfficer == patch[HiringOfficerColumn]
    ensures HiringOfficerColumn !in patch ==> r'.hiringOfficer == r.hiringOfficer
    ensures PictureUrlColumn in patch ==> r'.pictureUrl == patch[PictureUrlColumn]
    ensures PictureUrlColumn !in patch ==> r'.pictureUrl == r.pictureUrl
  {
    r.(fullName := Patched(r.fullName, patch, FullNameColumn),
       resumptionDate := Patched(r.resumptionDate, patch, ResumptionDateColumn),
       exitDate := if ExitDateColumn in patch then Some(patch[ExitDateColumn]) else r.exitDate,
       location := Patched(r.location, patch, LocationColumn),
       designation := Patched(r.designation, patch, DesignationColumn),
       hiringOfficer := Patched(r.hiringOfficer, patch, HiringOfficerColumn),
       pictureUrl := Patched(r.pictureUrl, patch, PictureUrlColumn))
  }

  /** The row an insert creates. */
  function Created(row: NewRow, id: nat, createdAt: nat): StaffRecord
  {
    StaffRecord(id, row.fullName, row.resumptionDate, Some(row.exitDate), row.location,
                row.designation, row.hiringOfficer, row.pictureUrl, createdAt)
  }

  /** The remote calls, as the backend sees them. */
  datatype Call =
    | UploadCall(bucket: string, key: string)
    | RemoveCall(bucket: string, path: string)
    | InsertCall(row: NewRow)
    | UpdateCall(target: Option<nat>, patch: Patch)
    | DeleteCall(deleted: nat)
    | SelectCall

  /** What the object store answers to an upload with `upsert: false` onto an existing key. */
  const DuplicateMessage := "The resource already exists"

  type Objects = map<string, map<string, Bytes>>

  predicate HasObject(objects: Objects, bucket: string, key: string)
  {
    bucket in objects && key in objects[bucket]
  }

  function Put(objects: Objects, bucket: string, key: string, data: Bytes): (r: Objects)
    ensures HasObject(r, bucket, key) && r[bucket][key] == data
    ensures forall b, k :: (b != bucket || k != key) ==> (HasObject(r, b, k) <==> HasObject(objects, b, k))
  {
    objects[bucket := (if bucket in objects then objects[bucket] else map[])[key := data]]
  }

  function Without(objects: Objects, bucket: string, key: string): (r: Objects)
    ensures !HasObject(r, bucket, key)
    ensures forall b, k :: (b != bucket || k != key) ==> (HasObject(r, b, k) <==> HasObject(objects, b, k))
  {
    if bucket in objects then objects[bucket := objects[bucket] - {key}] else objects
  }

  /** `update(patch).eq('id', target)`: the matching row is patched; no match changes nothing. */
  function UpdateRows(rows: seq<StaffRecord>, target: Option<nat>, patch: Patch): (r: seq<StaffRecord>)
    ensures |r| == |rows|
    ensures forall i :: 0 <= i < |rows| && Some(rows[i].id) != target ==> r[i] == rows[i]
    ensures forall i :: 0 <= i < |rows| && Some(rows[i].id) == target ==> r[i] == ApplyPatch(rows[i], patch)
    ensures forall i :: 0 <= i < |rows| ==> r[i].id == rows[i].id
  {
    seq(|rows|, i requires 0 <= i < |rows| =>
      if Some(rows[i].id) == target then ApplyPatch(rows[i], patch) else rows[i])
  }

  /** `delete().eq('id', target)`: exactly the rows with another id survive. */
  function DeleteRows(rows: seq<StaffRecord>, target: nat): (r: seq<StaffRecord>)
    ensures forall x :: x in r <==> x in rows && x.id != target
    ensures |r| <= |rows|
    decreases |rows|
  {
    if rows == [] then []
    else (if rows[0].id == target then [] else [rows[0]]) + DeleteRows(rows[1..], target)
  }

  /** With no row to delete, nothing moves. */
  lemma {:induction false} DeleteRowsNoMatch(rows: seq<StaffRecord>, target: nat)
    requires forall k :: 0 <= k < |rows| ==> rows[k].id != target
    ensures DeleteRows(rows, target) == rows
    decreases |rows|
  {
    if rows != [] {
      assert forall k :: 0 <= k < |rows[1..]| ==> rows[1..][k].id != target by {
        forall k | 0 <= k < |rows[1..]| ensures rows[1..][k].id != target {
          assert rows[1..][k] == rows[k + 1];
        }
      }
      DeleteRowsNoMatch(rows[1..], target);
      assert rows == [rows[0]] + rows[1..];
    }
  }

  predicate SortedByCreatedDesc(rows: seq<StaffRecord>)
  {
    forall i, j :: 0 <= i < j < |rows| ==> rows[i].createdAt >= rows[j].createdAt
  }

  function InsertByCreatedDesc(x: StaffRecord, s: seq<StaffRecord>): (r: seq<StaffRecord>)
    requires SortedByCreatedDesc(s)
    ensures SortedByCreatedDesc(r)
    ensures multiset(r) == multiset(s) + multiset{x}
    ensures |r| == |s| + 1 && r[0] == (if s == [] || s[0].createdAt <= x.createdAt then x else s[0])
    decreases |s|
  {
    if s == [] || s[0].createdAt <= x.createdAt then
      ConsSorted(x, s);
      [x] + s
    else
      var t := InsertByCreatedDesc(x, s[1..]);
      assert s == [s[0]] + s[1..];
      ConsSorted(s[0], t);
      [s[0]] + t
  }

  /** A record no older than the head of a sorted list can go in front of it. */
  lemma ConsSorted(a: StaffRecord, t: seq<StaffRecord>)
    requires SortedByCreatedDesc(t)
    requires t != [] ==> t[0].createdAt <= a.createdAt
    ensures SortedByCreatedDesc([a] + t)
  {
    var r := [a] + t;
    forall i, j | 0 <= i < j < |r| ensures r[i].createdAt >= r[j].createdAt {
      if i == 0 {
        assert r[j] == t[j - 1];
        assert t[j - 1].createdAt <= t[0].createdAt;
      } else {
        assert r[i] == t[i - 1] && r[j] == t[j - 1];
      }
    }
  }

  /** `order('created_at', { ascending: false })`: the same rows, newest first. */
  function SortByCreatedDesc(rows: seq<StaffRecord>): (r: seq<StaffRecord>)
    ensures SortedByCreatedDesc(r)
    ensures multiset(r) == multiset(rows)
    decreases |rows|
  {
    if rows == [] then []
    else
      assert rows == [rows[0]] + rows[1..];
      InsertByCreatedDesc(rows[0], SortByCreatedDesc(rows[1..]))
  }

  class Remote {
    var objects: Objects
    var rows: seq<StaffRecord>
    var nextId: nat
    ghost var calls: seq<Call>

    /** Row ids are distinct and below the next id the table hands out. */
    ghost predicate Valid()
      reads this
    {
      IdsBelow(rows, nextId) && DistinctIds(rows)
    }

    constructor ()
      ensures Valid() && objects == map[] && rows == [] && calls == []
    {
      objects, rows, nextId := map[], [], 0;
      calls := [];
    }

    /** `storage.from(bucket).upload(key, data, { upsert: false })`. */
    method Upload(bucket: string, key: string, data: Bytes, fault: Option<string>) returns (err: Option<string>)
      modifies this
      ensures calls == old(calls) + [UploadCall(bucket, key)]
      ensures rows == old(rows) && nextId == old(nextId)
      ensures err == if fault.Some? then fault
                     else if HasObject(old(objects), bucket, key) then Some(DuplicateMessage)
                     else None
      ensures objects == if err.None? then Put(old(objects), bucket, key, data) else old(objects)
    {
      calls := calls + [UploadCall(bucket, key)];
      if fault.Some? {
        err := fault;
      } else if HasObject(objects, bucket, key) {
        err := Some(DuplicateMessage);
      } else {
        objects := Put(objects, bucket, key, data);
        err := None;
      }
    }

    /** `storage.from(bucket).remove([path])`; removing a missing object is not an error. */
    method Remove(bucket: string, path: string, fault: Option<string>) returns (err: Option<string>)
      modifies this
      ensures calls == old(calls) + [RemoveCall(bucket, path)]
      ensures rows == old(rows) && nextId == old(nextId)
      ensures err == fault
      ensures objects == if fault.None? then Without(old(objects), bucket, path) else old(objects)
    {
      calls := calls + [RemoveCall(bucket, path)];
      err := fault;
      if fault.None? {
        objects := Without(objects, bucket, path);
      }
    }

    /** `from('staff_records').insert([row]).select()`: the created row. */
    method Insert(row: NewRow, now: nat, fault: Option<string>) returns (r: Result<StaffRecord>)
      requires Valid()
      modifies this
      ensures Valid()
      ensures calls == old(calls) + [InsertCall(row)]
      ensures objects == old(objects)
      ensures fault.Some? ==> r == Failure(fault.value) && rows == old(rows) && nextId == old(nextId)
      ensures fault.None? ==> && r == Success(Created(row, old(nextId), now))
                              && rows == old(rows) + [r.value]
                              && nextId == old(nextId) + 1
    {
      calls := calls + [InsertCall(row)];
      if fault.Some? {
        r := Failure(fault.value);
      } else {
        var rec := Created(row, nextId, now);
        rows := rows + [rec];
        nextId := nextId + 1;
        r := Success(rec);
      }
    }

    /** `from('staff_records').update(patch).eq('id', target)`; no matching row is not an error. */
    method Update(target: Option<nat>, patch: Patch, fault: Option<string>) returns (err: Option<string>)
      requires Valid()
      modifies this
      ensures Valid()
      ensures calls == old(calls) + [UpdateCall(target, patch)]
      ensures objects == old(objects) && nextId == old(nextId)
      ensures err == fault
      ensures rows == if fault.None? then UpdateRows(old(rows), target, patch) else old(rows)
    {
      calls := calls + [UpdateCall(target, patch)];
      err := fault;
      if fault.None? {
        rows := UpdateRows(rows, target, patch);
      }
    }

    /** `from('staff_records').delete().eq('id', target)`; no matching row is not an error. */
    method Delete(target: nat, fault: Option<string>) returns (err: Option<string>)
      requires Valid()
      modifies this
      ensures Valid()
      ensures calls == old(calls) + [DeleteCall(target)]
      ensures objects == old(objects) && nextId == old(nextId)
      ensures err == fault
      ensures rows == if fault.None? then DeleteRows(old(rows), target) else old(rows)
    {
      calls := calls + [DeleteCall(target)];
      err := fault;
      if fault.None? {
        DeleteKeepsValid(rows, target, nextId);
        rows := DeleteRows(rows, target);
      }
    }

    /** `from('staff_records').select('*').order('created_at', { ascending: false })`. */
    method SelectAll(fault: Option<string>) returns (r: Result<seq<StaffRecord>>)
      modifies this
      ensures calls == old(calls) + [SelectCall]
      ensures objects == old(objects) && rows == old(rows) && nextId == old(nextId)
      ensures r == if fault.Some? then Failure(fault.value) else Success(SortByCreatedDesc(rows))
    {
      calls := calls + [SelectCall];
      if fault.Some? {
        r := Failure(fault.value);
      } else {
        r := Success(SortByCreatedDesc(rows));
      }
    }
  }

  predicate IdsBelow(rows: seq<StaffRecord>, bound: nat)
  {
    forall i :: 0 <= i < |rows| ==> rows[i].id < bound
  }

  predicate DistinctIds(rows: seq<StaffRecord>)
  {
    forall i, j :: 0 <= i < j < |rows| ==> rows[i].id != rows[j].id
  }

  lemma DistinctIdsCons(x: StaffRecord, t: seq<StaffRecord>)
    ensures DistinctIds([x] + t) <==> DistinctIds(t) && forall y :: y in t ==> y.id != x.id
  {
    var s := [x] + t;
    if DistinctIds(t) && forall y :: y in t ==> y.id != x.id {
      forall i, j | 0 <= i < j < |s| ensures s[i].id != s[j].id {
        assert s[j] == t[j - 1];
        if i > 0 { assert s[i] == t[i - 1]; }
      }
    }
    if DistinctIds(s) {
      forall y | y in t ensures y.id != x.id {
        var k :| 0 <= k < |t| && t[k] == y;
        assert s[0] == x && s[k + 1] == y;
        assert s[0].id != s[k + 1].id;
      }
      forall i, j | 0 <= i < j < |t| ensures t[i].id != t[j].id {
        assert s[i + 1] == t[i] && s[j + 1] == t[j];
      }
    }
  }

  /** Deleting rows keeps ids distinct and below the next id. */
  lemma {:induction false} DeleteKeepsValid(rows: seq<StaffRecord>, target: nat, nextId: nat)
    requires IdsBelow(rows, nextId) && DistinctIds(rows)
    ensures IdsBelow(DeleteRows(rows, target), nextId) && DistinctIds(DeleteRows(rows, target))
  {
    if rows != [] {
      var t := rows[1..];
      assert rows == [rows[0]] + t;
      DistinctIdsCons(rows[0], t);
      DeleteKeepsValid(t, target, nextId);
      var r := DeleteRows(rows, target);
      var rt := DeleteRows(t, target);
      if rows[0].id != target {
        assert r == [rows[0]] + rt;
        DistinctIdsCons(rows[0], rt);
      } else {
        assert r == rt;
      }
    }
  }
}
