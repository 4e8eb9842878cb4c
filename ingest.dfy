/** The upload handler: request guards, the reject-or-commit gate and the transactional,
    chunked insertion of an SBOM and its components. */
module SbomIngest {
  import opened Wrappers
  import opened Json
  import opened JsString
  import opened SbomParse

  /** 25 MiB: the largest file the handler accepts. */
  const MaxUploadBytes: nat := 25 * 1024 * 1024

  /** Components per `createMany` call. */
  const ChunkSize: nat := 2000

  /** An opaque point in time (`new Date()`). */
  type Timestamp = int

  datatype SbomStatus = PARSING | READY

  datatype SbomRow = SbomRow(
    id: nat,
    projectId: string,
    name: string,
    filename: string,
    format: SbomFormat,
    specVersion: Option<string>,
    status: SbomStatus,
    parsedAt: Option<Timestamp>,
    rawJson: Json)

  datatype ComponentRow = ComponentRow(
    sbomId: nat,
    name: string,
    version: Option<string>,
    purl: Option<string>,
    group: Option<string>,
    componentType: Option<string>,
    supplier: Option<string>,
    license: Option<string>,
    scope: Option<string>,
    metadata: Json)

  /** The row `createMany` inserts for one normalized component. */
  function ToRow(sbomId: nat, c: NormalizedComponent): ComponentRow {
    ComponentRow(sbomId, c.name, c.version, c.purl, c.group, c.componentType, c.supplier, c.license, c.scope, c.metadata)
  }

  function Rows(sbomId: nat, cs: seq<NormalizedComponent>): (r: seq<ComponentRow>)
    ensures |r| == |cs|
  {
    seq(|cs|, k requires 0 <= k < |cs| => ToRow(sbomId, cs[k]))
  }

  /** The rows for `cs`, in order: each carries `sbomId` and copies every field of its component. */
  lemma RowsCopyFields(sbomId: nat, cs: seq<NormalizedComponent>, k: nat)
    requires k < |cs|
    ensures var r := Rows(sbomId, cs)[k];
      && r.sbomId == sbomId && r.name == cs[k].name && r.version == cs[k].version
      && r.purl == cs[k].purl && r.group == cs[k].group && r.componentType == cs[k].componentType
      && r.supplier == cs[k].supplier && r.license == cs[k].license && r.scope == cs[k].scope
      && r.metadata == cs[k].metadata
  {
  }

  lemma RowsAppend(sbomId: nat, a: seq<NormalizedComponent>, b: seq<NormalizedComponent>)
    ensures Rows(sbomId, a + b) == Rows(sbomId, a) + Rows(sbomId, b)
  {
    assert forall k :: 0 <= k < |a + b| ==> Rows(sbomId, a + b)[k] == (Rows(sbomId, a) + Rows(sbomId, b))[k];
  }

  // ---------------------------------------------------------------- batching

  function Min(a: int, b: int): int {
    if a <= b then a else b
  }

  /** The consecutive slices of at most `size` elements, starting at 0, `size`, `2 * size`, ... below `|s|`. */
  function Batches<T>(s: seq<T>, size: nat): seq<seq<T>>
    requires size > 0
    decreases |s|
  {
    if |s| == 0 then []
    else if |s| <= size then [s]
    else [s[..size]] + Batches(s[size..], size)
  }

  function Flatten<T>(bs: seq<seq<T>>): seq<T> {
    if bs == [] then [] else bs[0] + Flatten(bs[1..])
  }

  lemma {:induction false} FlattenSnoc<T>(bs: seq<seq<T>>, b: seq<T>)
    ensures Flatten(bs + [b]) == Flatten(bs) + b
  {
    if bs == [] {
      assert [] + [b] == [b];
    } else {
      assert (bs + [b])[1..] == bs[1..] + [b];
      FlattenSnoc(bs[1..], b);
    }
  }

  function Sizes<T>(bs: seq<seq<T>>): seq<nat> {
    seq(|bs|, k requires 0 <= k < |bs| => |bs[k]|)
  }

  /** The batches concatenate back to the list, in order. */
  lemma {:induction false} BatchesFlatten<T>(s: seq<T>, size: nat)
    requires size > 0
    ensures Flatten(Batches(s, size)) == s
    decreases |s|
  {
    if |s| > size {
      BatchesFlatten(s[size..], size);
      assert s[..size] + s[size..] == s;
    }
  }

  /** There are ceil(|s| / size) batches: the smallest count whose capacity covers the list. */
  lemma {:induction false} BatchesCount<T>(s: seq<T>, size: nat)
    requires size > 0
    ensures (|Batches(s, size)| - 1) * size < |s| <= |Batches(s, size)| * size
    decreases |s|
  {
    if |s| > size {
      var m := |Batches(s[size..], size)|;
      BatchesCount(s[size..], size);
      assert (m + 1) * size == m * size + size;
      assert m * size == (m - 1) * size + size;
    }
  }

  /** No batch is empty, none exceeds `size`, and all but the last hold exactly `size`. */
  lemma {:induction false} BatchesSizes<T>(s: seq<T>, size: nat)
    requires size > 0
    ensures forall k :: 0 <= k < |Batches(s, size)| ==> 0 < |Batches(s, size)[k]| <= size
    ensures forall k :: 0 <= k < |Batches(s, size)| - 1 ==> |Batches(s, size)[k]| == size
    decreases |s|
  {
    if |s| > size {
      BatchesSizes(s[size..], size);
      var b := Batches(s, size);
      assert b == [s[..size]] + Batches(s[size..], size);
    }
  }

  /** The k-th batch is the slice [k * size, min((k + 1) * size, |s|)). */
  lemma {:induction false} BatchesSlices<T>(s: seq<T>, size: nat, k: nat)
    requires size > 0 && k < |Batches(s, size)|
    ensures k * size < |s| && Batches(s, size)[k] == s[k * size..Min((k + 1) * size, |s|)]
    decreases |s|
  {
    if k > 0 {
      var rest := s[size..];
      var j := k - 1;
      assert Batches(s, size) == [s[..size]] + Batches(rest, size);
      BatchesSlices(rest, size, j);
      assert k * size == j * size + size;
      assert (k + 1) * size == (j + 1) * size + size;
      assert rest[j * size..Min((j + 1) * size, |rest|)] == s[k * size..Min((k + 1) * size, |s|)];
    }
  }

  /** 4001 components in chunks of 2000 are inserted as 2000, 2000 and 1. */
  lemma FourThousandOneComponents<T>(s: seq<T>)
    requires |s| == 4001
    ensures Sizes(Batches(s, 2000)) == [2000, 2000, 1]
  {
    var b := Batches(s, 2000);
    assert b == [s[..2000]] + Batches(s[2000..], 2000);
    assert Batches(s[2000..], 2000) == [s[2000..][..2000]] + Batches(s[2000..][2000..], 2000);
    assert Batches(s[2000..][2000..], 2000) == [s[2000..][2000..]];
  }

  /** One loop step: the batches of a suffix start with the next slice. */
  lemma BatchesStep<T>(s: seq<T>, i: nat, size: nat)
    requires size > 0 && i < |s|
    ensures Batches(s[i..], size) == [s[i..Min(i + size, |s|)]] + Batches(s[Min(i + size, |s|)..], size)
  {
    var t := s[i..];
    if |t| <= size {
      assert s[Min(i + size, |s|)..] == [];
      assert t == s[i..Min(i + size, |s|)];
    } else {
      assert t[..size] == s[i..i + size];
      assert t[size..] == s[i + size..];
    }
  }

  // ---------------------------------------------------------------- counting

  /** Number of component rows that belong to `sbomId`. */
  function CountFor(rows: seq<ComponentRow>, sbomId: nat): nat {
    if rows == [] then 0 else (if rows[0].sbomId == sbomId then 1 else 0) + CountFor(rows[1..], sbomId)
  }

  lemma {:induction false} CountForAppend(a: seq<ComponentRow>, b: seq<ComponentRow>, sbomId: nat)
    ensures CountFor(a + b, sbomId) == CountFor(a, sbomId) + CountFor(b, sbomId)
  {
    if a == [] {
      assert a + b == b;
    } else {
      assert (a + b)[1..] == a[1..] + b;
      CountForAppend(a[1..], b, sbomId);
    }
  }

  lemma {:induction false} CountForAbsent(rows: seq<ComponentRow>, sbomId: nat)
    requires forall k :: 0 <= k < |rows| ==> rows[k].sbomId != sbomId
    ensures CountFor(rows, sbomId) == 0
  {
    if rows != [] {
      CountForAbsent(rows[1..], sbomId);
    }
  }

  lemma {:induction false} CountForRows(sbomId: nat, cs: seq<NormalizedComponent>)
    ensures CountFor(Rows(sbomId, cs), sbomId) == |cs|
  {
    if cs != [] {
      assert Rows(sbomId, cs)[1..] == Rows(sbomId, cs[1..]);
      CountForRows(sbomId, cs[1..]);
    }
  }

  /** After appending the rows of a fresh Sbom id, that id owns exactly those rows. */
  lemma NewRowsCounted(before: seq<ComponentRow>, sbomId: nat, cs: seq<NormalizedComponent>)
    requires forall k :: 0 <= k < |before| ==> before[k].sbomId != sbomId
    ensures CountFor(before + Rows(sbomId, cs), sbomId) == |cs|
  {
    CountForAppend(before, Rows(sbomId, cs), sbomId);
    CountForAbsent(before, sbomId);
    CountForRows(sbomId, cs);
  }

  // ---------------------------------------------------------------- request guards

  /** The uploaded file: its name, its size in bytes, and its text parsed as JSON (None when `JSON.parse` throws). */
  datatype UploadFile = UploadFile(filename: string, size: nat, json: Option<Json>)

  /** The multipart form fields the handler reads; None is a missing field. */
  datatype UploadForm = UploadForm(file: Option<UploadFile>, name: Option<string>, projectId: Option<string>)

  datatype Admission =
    | Refuse(status: nat, error: string)
    | Admit(name: string, projectId: string, filename: string, json: Json)

  /** A form field as text with surrounding whitespace removed; a missing field reads as the empty string. */
  function FormText(field: Option<string>): string {
    Trim(field.GetOr(""))
  }

  /** The project exists and belongs to the user. */
  predicate Owns(projectOwners: map<string, string>, projectId: string, userId: string) {
    projectId in projectOwners && projectOwners[projectId] == userId
  }

  /** The checks the handler makes before parsing, in its order: session, required fields,
      size cap, project ownership, JSON syntax. */
  function CheckUpload(userId: Option<string>, form: UploadForm, projectOwners: map<string, string>): (r: Admission)
    ensures userId.None? <==> r == Refuse(401, "Unauthorized")
    ensures r == Refuse(400, "Missing file/name/projectId") <==>
      userId.Some? && (form.file.None? || FormText(form.name) == "" || FormText(form.projectId) == "")
    ensures r == Refuse(413, "File too large (max 25MB)") <==>
      userId.Some? && form.file.Some? && FormText(form.name) != "" && FormText(form.projectId) != ""
      && form.file.value.size > MaxUploadBytes
    ensures r == Refuse(403, "Invalid project") <==>
      userId.Some? && form.file.Some? && FormText(form.name) != "" && FormText(form.projectId) != ""
      && form.file.value.size <= MaxUploadBytes && !Owns(projectOwners, FormText(form.projectId), userId.value)
    ensures r == Refuse(400, "Invalid JSON") <==>
      userId.Some? && form.file.Some? && FormText(form.name) != "" && FormText(form.projectId) != ""
      && form.file.value.size <= MaxUploadBytes && Owns(projectOwners, FormText(form.projectId), userId.value)
      && form.file.value.json.None?
    ensures r.Admit? <==>
      userId.Some? && form.file.Some? && FormText(form.name) != "" && FormText(form.projectId) != ""
      && form.file.value.size <= MaxUploadBytes && Owns(projectOwners, FormText(form.projectId), userId.value)
      && form.file.value.json.Some?
    ensures r.Admit? ==> r == Admit(FormText(form.name), FormText(form.projectId), form.file.value.filename, form.file.value.json.value)
  {
    if userId.None? then Refuse(401, "Unauthorized")
    else
      var name := FormText(form.name);
      var projectId := FormText(form.projectId);
      if form.file.None? || name == "" || projectId == "" then Refuse(400, "Missing file/name/projectId")
      else if form.file.value.size > MaxUploadBytes then Refuse(413, "File too large (max 25MB)")
      else if !Owns(projectOwners, projectId, userId.value) then Refuse(403, "Invalid project")
      else if form.file.value.json.None? then Refuse(400, "Invalid JSON")
      else Admit(name, projectId, form.file.value.filename, form.file.value.json.value)
  }

  /** A name made only of whitespace (trimmed to empty) is refused as missing. */
  lemma BlankNameRefused(userId: string, form: UploadForm, projectOwners: map<string, string>)
    requires form.name.Some? && AllWhitespace(form.name.value)
    ensures CheckUpload(Some(userId), form, projectOwners) == Refuse(400, "Missing file/name/projectId")
  {
    TrimEmptyIff(form.name.value);
  }

  // ---------------------------------------------------------------- the reject gate

  /** The reject-or-commit gate: only a recognised format with at least one component is stored. */
  predicate Storable(parsed: ParseResult) {
    parsed.format != OTHER && |parsed.components| > 0
  }

  /** A document with no recognised format is never stored. */
  lemma UnrecognisedNeverStorable(json: Json)
    requires !IsRecord(json) || (!IsCycloneDx(json) && !IsSpdx(json))
    ensures !Storable(ParseSbomJson(json))
  {
  }

  /** Storage calls of one ingestion: the create (0), one per batch, and the update. */
  function StorageCalls(parsed: ParseResult, chunkSize: nat): nat
    requires chunkSize > 0
  {
    |Batches(parsed.components, chunkSize)| + 2
  }

  /** The injected fault hits one of this ingestion's storage calls. */
  predicate Faults(faultAt: Option<nat>, calls: nat) {
    faultAt.Some? && faultAt.value < calls
  }

  datatype Response = Created(sbomId: nat) | Rejected(status: nat, error: string) | StorageFailure

  // ---------------------------------------------------------------- the store

  /** The Sbom and Component tables. `nextId` stands for the database's choice of fresh ids. */
  class Store {
    var sboms: map<nat, SbomRow>
    var components: seq<ComponentRow>
    var nextId: nat

    /** Outside a transaction every stored Sbom is READY with `parsedAt` set, and every
        component belongs to a stored Sbom. */
    ghost predicate Valid()
      reads this
    {
      && (forall id :: id in sboms ==>
            id < nextId && sboms[id].id == id && sboms[id].status == READY && sboms[id].parsedAt.Some?)
      && (forall k :: 0 <= k < |components| ==> components[k].sbomId in sboms)
    }

    constructor ()
      ensures Valid() && sboms == map[] && components == [] && nextId == 0
    {
      sboms, components, nextId := map[], [], 0;
    }

    /** `tx.sbom.create`; `fail` makes the call throw. */
    method CreateSbom(projectId: string, name: string, filename: string, format: SbomFormat,
                      specVersion: Option<string>, rawJson: Json, fail: bool)
      returns (id: Option<nat>)
      modifies this
      ensures fail ==> id == None && sboms == old(sboms) && components == old(components) && nextId == old(nextId)
      ensures !fail ==> id == Some(old(nextId)) && nextId == old(nextId) + 1 && components == old(components)
      ensures !fail ==> sboms == old(sboms)[old(nextId) :=
        SbomRow(old(nextId), projectId, name, filename, format, specVersion, PARSING, None, rawJson)]
    {
      if fail {
        return None;
      }
      id := Some(nextId);
      sboms := sboms[nextId := SbomRow(nextId, projectId, name, filename, format, specVersion, PARSING, None, rawJson)];
      nextId := nextId + 1;
    }

    /** `tx.component.createMany`; `fail` makes the call throw. */
    method CreateMany(rows: seq<ComponentRow>, fail: bool) returns (ok: bool)
      modifies this
      ensures ok == !fail
      ensures ok ==> components == old(components) + rows
      ensures !ok ==> components == old(components)
      ensures sboms == old(sboms) && nextId == old(nextId)
    {
      ok := !fail;
      if ok {
        components := components + rows;
      }
    }

    /** `tx.sbom.update` to READY with `parsedAt`; throws when `fail` or the row does not exist. */
    method MarkReady(id: nat, now: Timestamp, fail: bool) returns (ok: bool)
      modifies this
      ensures ok == (!fail && id in old(sboms))
      ensures ok ==> sboms == old(sboms)[id := old(sboms)[id].(status := READY, parsedAt := Some(now))]
      ensures !ok ==> sboms == old(sboms)
      ensures components == old(components) && nextId == old(nextId)
    {
      ok := !fail && id in sboms;
      if ok {
        sboms := sboms[id := sboms[id].(status := READY, parsedAt := Some(now))];
      }
    }

    /** The insertion loop: `createMany` on each consecutive slice of `chunkSize` components,
        the slice with index k (counting from 0) being storage call k + 1. Stops at the first throwing call;
        `issued` is the list of slices handed to `createMany`. */
    method InsertBatches(id: nat, cs: seq<NormalizedComponent>, chunkSize: nat, faultAt: Option<nat>)
      returns (ok: bool, issued: seq<seq<NormalizedComponent>>)
      requires chunkSize > 0
      modifies this
      ensures sboms == old(sboms) && nextId == old(nextId)
      ensures ok == !(faultAt.Some? && 1 <= faultAt.value <= |Batches(cs, chunkSize)|)
      ensures ok ==> components == old(components) + Rows(id, cs) && issued == Batches(cs, chunkSize)
      ensures issued <= Batches(cs, chunkSize)
      ensures !ok ==> |issued| == faultAt.value - 1 && components == old(components) + Rows(id, Flatten(issued))
    {
      ghost var all := Batches(cs, chunkSize);
      var n := |cs|;
      var i := 0;
      issued := [];
      while i < n
        invariant 0 <= i
        invariant issued + Batches(cs[Min(i, n)..], chunkSize) == all
        invariant i < n ==> |issued| < |all|
        invariant Flatten(issued) == cs[..Min(i, n)]
        invariant components == old(components) + Rows(id, Flatten(issued))
        invariant sboms == old(sboms) && nextId == old(nextId)
        invariant faultAt.None? || faultAt.value == 0 || faultAt.value > |issued|
      {
        var hi := Min(i + chunkSize, n);
        var chunk := cs[i..hi];
        BatchesStep(cs, i, chunkSize);
        ok := CreateMany(Rows(id, chunk), faultAt == Some(|issued| + 1));
        if !ok {
          return;
        }
        RowsAppend(id, Flatten(issued), chunk);
        FlattenSnoc(issued, chunk);
        assert cs[..hi] == cs[..i] + chunk;
        issued := issued + [chunk];
        i := i + chunkSize;
        assert Min(i, n) == hi;
      }
      assert cs[..n] == cs;
      ok := true;
    }

    /** The body of the upload handler after its guards: parse, reject unsupported or empty documents, otherwise create the Sbom in
        PARSING, insert its components in consecutive slices of `chunkSize`, and mark it READY, all
        in one transaction. A throwing storage call (`faultAt` names which) restores the snapshot
        taken when the transaction began. `issued` is the list of slices handed to `createMany`. */
    method Ingest(name: string, projectId: string, filename: string, json: Json,
                  chunkSize: nat, now: Timestamp, faultAt: Option<nat>)
      returns (res: Response, issued: seq<seq<NormalizedComponent>>)
      requires Valid() && chunkSize > 0
      modifies this
      ensures Valid()
      ensures var parsed := ParseSbomJson(json);
        && (!Storable(parsed) ==> res == Rejected(400, "Unsupported or empty SBOM") && issued == [])
        && (Storable(parsed) && Faults(faultAt, StorageCalls(parsed, chunkSize)) ==> res == StorageFailure)
        && (Storable(parsed) && !Faults(faultAt, StorageCalls(parsed, chunkSize)) ==> res == Created(old(nextId)))
      ensures !res.Created? ==> sboms == old(sboms) && components == old(components) && nextId == old(nextId)
      ensures issued <= Batches(ParseSbomJson(json).components, chunkSize)
      ensures res.Created? ==> var parsed := ParseSbomJson(json);
        && res.sbomId !in old(sboms)
        && sboms == old(sboms)[res.sbomId :=
             SbomRow(res.sbomId, projectId, name, filename, parsed.format, parsed.specVersion, READY, Some(now), json)]
        && components == old(components) + Rows(res.sbomId, parsed.components)
        && CountFor(components, res.sbomId) == |parsed.components|
        && issued == Batches(parsed.components, chunkSize)
    {
      var parsed := ParseSbomJson(json);
      if parsed.format == OTHER || |parsed.components| == 0 {
        return Rejected(400, "Unsupported or empty SBOM"), [];
      }
      var cs := parsed.components;
      // the transaction's snapshot
      var sboms0, components0, nextId0 := sboms, components, nextId;

      issued := [];
      var created := CreateSbom(projectId, name, filename, parsed.format, parsed.specVersion, json, faultAt == Some(0));
      if created.None? {
        return StorageFailure, issued;
      }
      var id := created.value;

      var inserted;
      inserted, issued := InsertBatches(id, cs, chunkSize, faultAt);
      if !inserted {
        sboms, components, nextId := sboms0, components0, nextId0;
        return StorageFailure, issued;
      }

      var ready := MarkReady(id, now, faultAt == Some(|issued| + 1));
      if !ready {
        sboms, components, nextId := sboms0, components0, nextId0;
        return StorageFailure, issued;
      }
      NewRowsCounted(components0, id, cs);
      res := Created(id);
    }

    /** `POST /api/sboms`: the guards, then ingestion with chunks of 2000. */
    method Post(userId: Option<string>, form: UploadForm, projectOwners: map<string, string>,
                now: Timestamp, faultAt: Option<nat>)
      returns (res: Response, issued: seq<seq<NormalizedComponent>>)
      requires Valid()
      modifies this
      ensures Valid()
      ensures CheckUpload(userId, form, projectOwners).Refuse? ==>
        var r := CheckUpload(userId, form, projectOwners);
        res == Rejected(r.status, r.error) && issued == []
      ensures CheckUpload(userId, form, projectOwners).Admit? ==>
        var parsed := ParseSbomJson(CheckUpload(userId, form, projectOwners).json);
        && (!Storable(parsed) ==> res == Rejected(400, "Unsupported or empty SBOM") && issued == [])
        && (Storable(parsed) && Faults(faultAt, StorageCalls(parsed, ChunkSize)) ==> res == StorageFailure)
        && (Storable(parsed) && !Faults(faultAt, StorageCalls(parsed, ChunkSize)) ==> res == Created(old(nextId)))
      ensures !res.Created? ==> sboms == old(sboms) && components == old(components) && nextId == old(nextId)
      ensures res.Created? ==> var a := CheckUpload(userId, form, projectOwners);
        var parsed := ParseSbomJson(a.json);
        && a.Admit? && Storable(parsed) && res.sbomId !in old(sboms)
        && sboms == old(sboms)[res.sbomId :=
             SbomRow(res.sbomId, a.projectId, a.name, a.filename, parsed.format, parsed.specVersion, READY, Some(now), a.json)]
        && components == old(components) + Rows(res.sbomId, parsed.components)
        && issued == Batches(parsed.components, ChunkSize)
    {
      var admission := CheckUpload(userId, form, projectOwners);
      if admission.Refuse? {
        return Rejected(admission.status, admission.error), [];
      }
      res, issued := Ingest(admission.name, admission.projectId, admission.filename, admission.json, ChunkSize, now, faultAt);
    }
  }
}
